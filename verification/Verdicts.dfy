/** Why a run ends as it does: the calls it made decide its error, and whether it has one. */
module Verdicts {
  import opened Outcomes
  import opened Dicts
  import opened Json
  import opened Security
  import opened SecretRefs
  import opened Duplicates
  import opened Urls
  import opened Contracts
  import opened Readouts
  import opened Ports
  import opened Pipeline
  import opened EffectOrder
  import Totality

  function Blame<T>(r: Reply<T>): Outcome<()> {
    if r.Done? then Ok(()) else r.Outcome().Failed()
  }

  /** What a call failed with, as the port put it. */
  function BlameOf(e: Event): Outcome<()> {
    match e
    case DidAuthorize(_, _, r) => Blame(r)
    case DidResolve(_, r) => Blame(r)
    case DidRead(_, _, r) => Blame(r)
    case DidStamp(r) => Blame(r)
    case DidCompute(_, _, _, r) => Blame(r)
    case DidWrite(_, _, _, w) => Blame(w.reply)
    case DidNotify(_, _, r) => Blame(r)
    case DidDispatch(_, _, _, r) => Blame(r)
  }

  ghost predicate Flawless(seg: History) {
    forall i | 0 <= i < |seg| :: seg[i].Succeeded()
  }

  /** The last call failed, and with this. */
  ghost predicate Broke(seg: History, out: Outcome<()>) {
    seg != [] && !seg[|seg| - 1].Succeeded() && out == BlameOf(seg[|seg| - 1])
  }

  /** The URI whose turn it was is not in the allowlist. */
  ghost predicate Disallowed(env: Env, c: Contract, seg: History, out: Outcome<()>) {
    Flawless(seg) && |seg| < |Uris(c)| && out == CheckScheme(env.allowed, Uris(c)[|seg|], env.leaves.brackets)
  }

  /** The backend has just answered, and the gate refuses the answer. */
  ghost predicate GateRefused(env: Env, seg: History, out: Outcome<()>) {
    && seg != [] && var e := seg[|seg| - 1];
    && e.DidCompute? && e.result.Done?
    && var gate := Gate(e.result.value.byRole, e.context, env.reader);
       !gate.Ok? && out == gate.Failed()
  }

  /** The backend answered, the first `k` outputs are written, and the next has nothing to write. */
  ghost predicate LackedAt(env: Env, c: Contract, seg: History, out: Outcome<()>, k: nat) {
    && k < |c.outputs| && k < |seg| && var e := seg[|seg| - 1 - k];
    && e.DidCompute? && e.result.Done? && Gate(e.result.value.byRole, e.context, env.reader).Ok?
    && var role := c.outputs[k].target.role;
       role !in e.result.value.byRole && out == Escaped(MissingKey(role))
  }

  ghost predicate Lacked(env: Env, c: Contract, seg: History, out: Outcome<()>) {
    Flawless(seg) && exists k :: LackedAt(env, c, seg, out, k)
  }

  /** The four ways processing a contract can stop. */
  ghost predicate Stopped(env: Env, c: Contract, seg: History, out: Outcome<()>) {
    Broke(seg, out) || Disallowed(env, c, seg, out) || GateRefused(env, seg, out) || Lacked(env, c, seg, out)
  }

  // ---------------------------------------------------------------- every failure has a reason

  lemma BrokeLater(a: History, b: History, out: Outcome<()>)
    requires Broke(b, out)
    ensures Broke(a + b, out)
  {
  }

  lemma FlawlessBoth(a: History, b: History)
    requires Flawless(a) && Flawless(b)
    ensures Flawless(a + b)
  {
  }

  lemma {:induction false} AuthorizingVerdict(env: Env, h: History, uris: seq<string>, identity: Identity, i: nat)
    requires i <= |uris| && !Authorizing(env, h, uris, identity, i).out.Ok?
    ensures var s := Authorizing(env, h, uris, identity, i);
      || Broke(s.seg, s.out)
      || (Flawless(s.seg) && i + |s.seg| < |uris|
          && s.out == CheckScheme(env.allowed, uris[i + |s.seg|], env.leaves.brackets))
    decreases |uris| - i
  {
    hide CheckScheme;
    if i < |uris| && CheckScheme(env.allowed, uris[i], env.leaves.brackets).Ok? {
      var reply := env.ports.authorize(h, uris[i], identity);
      var event := DidAuthorize(uris[i], identity, reply);
      if reply.Done? {
        AuthorizingVerdict(env, h + [event], uris, identity, i + 1);
        var rest := Authorizing(env, h + [event], uris, identity, i + 1);
        if Broke(rest.seg, rest.out) {
          BrokeLater([event], rest.seg, rest.out);
        } else {
          FlawlessBoth([event], rest.seg);
        }
      }
    }
  }

  lemma {:induction false} ResolvingVerdict(env: Env, h: History, needs: seq<Need>, i: nat, acc: Dict<Credentials>)
    requires i <= |needs| && !Resolving(env, h, needs, i, acc).out.Ok?
    ensures var s := Resolving(env, h, needs, i, acc); Broke(s.seg, s.out.Failed())
    decreases |needs| - i
  {
    match needs[i].ref {
      case None =>
        ResolvingVerdict(env, h, needs, i + 1, Put(acc, needs[i].role, NO_CREDENTIALS));
      case Some(ref) =>
        var reply := env.ports.resolve(h, ref);
        var event := DidResolve(ref, reply);
        if reply.Done? {
          var more := Put(acc, needs[i].role, reply.value);
          ResolvingVerdict(env, h + [event], needs, i + 1, more);
          var rest := Resolving(env, h + [event], needs, i + 1, more);
          BrokeLater([event], rest.seg, rest.out.Failed());
        }
    }
  }

  lemma {:induction false} LoadingVerdict(env: Env, h: History, specs: seq<InputSpec>, creds: Dict<Credentials>, i: nat,
                                          acc: Dict<Bytes>)
    requires i <= |specs| && !Loading(env, h, specs, creds, i, acc).out.Ok?
    requires forall k | 0 <= k < |specs| :: specs[k].target.role in Keys(creds)
    ensures var s := Loading(env, h, specs, creds, i, acc); Broke(s.seg, s.out.Failed())
    decreases |specs| - i
  {
    GetSome(creds, specs[i].target.role);
    var cred := Lookup(creds, specs[i].target.role).value;
    var reply := env.ports.read(h, specs[i], cred);
    var event := DidRead(specs[i], cred, reply);
    if reply.Done? {
      var more := Put(acc, specs[i].target.role, reply.value);
      LoadingVerdict(env, h + [event], specs, creds, i + 1, more);
      var rest := Loading(env, h + [event], specs, creds, i + 1, more);
      BrokeLater([event], rest.seg, rest.out.Failed());
    }
  }

  lemma ComputeVerdict(env: Env, h: History, c: Contract, inputs: Dict<Bytes>)
    requires !ComputeContract(env, h, c, inputs).out.Ok?
    ensures var s := ComputeContract(env, h, c, inputs);
      Broke(s.seg, s.out.Failed()) || GateRefused(env, s.seg, s.out.Failed())
  {
    hide Gate, ContextOf;
  }

  lemma ComputedLast(env: Env, h: History, c: Contract, inputs: Dict<Bytes>)
    requires ComputeContract(env, h, c, inputs).out.Ok?
    ensures var s := ComputeContract(env, h, c, inputs);
      && |s.seg| == 2 && s.seg[1].DidCompute? && s.seg[1].result == Done(s.out.value.result)
      && Gate(s.out.value.result.byRole, s.seg[1].context, env.reader).Ok?
  {
    hide Gate, ContextOf;
  }

  lemma {:induction false} SavingVerdict(env: Env, h: History, specs: seq<OutputSpec>, creds: Dict<Credentials>,
                                         byRole: map<string, Bytes>, i: nat, acc: Dict<WriteReceipt>)
    requires i <= |specs| && !Saving(env, h, specs, creds, byRole, i, acc).out.Ok?
    requires forall k | 0 <= k < |specs| :: specs[k].target.role in Keys(creds)
    ensures var s := Saving(env, h, specs, creds, byRole, i, acc);
      || Broke(s.seg, s.out.Failed())
      || (Flawless(s.seg) && i + |s.seg| < |specs|
          && var role := specs[i + |s.seg|].target.role; role !in byRole && s.out == Escaped(MissingKey(role)))
    decreases |specs| - i
  {
    hide Put, Get, Keys;
    var role := specs[i].target.role;
    GetSome(creds, role);
    if role in byRole {
      var cred := Lookup(creds, role).value;
      var written := env.ports.write(h, specs[i], byRole[role], cred);
      var event := DidWrite(specs[i], byRole[role], cred, written);
      if written.reply.Done? {
        var more := Put(acc, role, written.reply.value);
        SavingVerdict(env, h + [event], specs, creds, byRole, i + 1, more);
        var rest := Saving(env, h + [event], specs, creds, byRole, i + 1, more);
        if Broke(rest.seg, rest.out.Failed()) {
          BrokeLater([event], rest.seg, rest.out.Failed());
        } else {
          FlawlessBoth([event], rest.seg);
        }
      }
    }
  }

  lemma AuthorizeVerdict(env: Env, h: History, c: Contract)
    requires !AuthorizeContract(env, h, c).out.Ok?
    ensures var s := AuthorizeContract(env, h, c); Broke(s.seg, s.out) || Disallowed(env, c, s.seg, s.out)
  {
    hide Authorizing, CheckScheme, Broke, Flawless;
    var a := Authorizing(env, h, InputUris(c), c.identity, 0);
    if !a.out.Ok? {
      AuthorizingVerdict(env, h, InputUris(c), c.identity, 0);
    } else {
      AuthorizingOrder(env, h, InputUris(c), c.identity, 0);
      AuthorizingVerdict(env, h + a.seg, OutputUris(c), c.identity, 0);
      var b := Authorizing(env, h + a.seg, OutputUris(c), c.identity, 0);
      if Broke(b.seg, b.out) {
        BrokeLater(a.seg, b.seg, b.out);
      } else {
        CompletedIsFlawless(a.seg, Authorizations(InputUris(c), 0));
        FlawlessBoth(a.seg, b.seg);
        assert Uris(c)[|a.seg| + |b.seg|] == OutputUris(c)[|b.seg|];
      }
    }
  }

  lemma CompletedIsFlawless(seg: History, plan: seq<Move>)
    requires Completes(seg, plan)
    ensures Flawless(seg) && |seg| == |plan|
  {
  }

  /** From the writes on: the backend's answer passed the gate and `before` went well. */
  lemma SavedVerdict(env: Env, h: History, c: Contract, before: History, inputs: Dict<Bytes>, creds: Dict<Credentials>)
    requires Flawless(before) && ComputeContract(env, h + before, c, inputs).out.Ok?
    requires forall k | 0 <= k < |c.outputs| :: c.outputs[k].target.role in Keys(creds)
    ensures var computed := ComputeContract(env, h + before, c, inputs);
      var s4, byRole := before + computed.seg, computed.out.value.result.byRole;
      var saved := Saving(env, h + s4, c.outputs, creds, byRole, 0, []);
      && Flawless(s4)
      && (!saved.out.Ok? ==> Stopped(env, c, s4 + saved.seg, saved.out.Failed()))
  {
    hide ComputeContract, Saving, Gate, Flawless, Keys;
    var computed := ComputeContract(env, h + before, c, inputs);
    var s4, byRole := before + computed.seg, computed.out.value.result.byRole;
    ComputedLast(env, h + before, c, inputs);
    ComputeOrder(env, h + before, c, inputs);
    CompletedIsFlawless(computed.seg, [ToStamp, ToCompute]);
    FlawlessBoth(before, computed.seg);
    var saved := Saving(env, h + s4, c.outputs, creds, byRole, 0, []);
    if !saved.out.Ok? {
      SavingVerdict(env, h + s4, c.outputs, creds, byRole, 0, []);
      if Broke(saved.seg, saved.out.Failed()) {
        BrokeLater(s4, saved.seg, saved.out.Failed());
      } else {
        FlawlessBoth(s4, saved.seg);
        var seg, k := s4 + saved.seg, |saved.seg|;
        assert seg[|seg| - 1 - k] == s4[|s4| - 1] == computed.seg[1];
        assert LackedAt(env, c, seg, saved.out.Failed(), k);
      }
    }
  }

  lemma GateRefusedLater(env: Env, a: History, b: History, out: Outcome<()>)
    requires GateRefused(env, b, out)
    ensures GateRefused(env, a + b, out)
  {
    hide Gate;
  }

  lemma NotifyBroke(seg: History, e: Event, out: Outcome<()>)
    requires e.DidNotify? && !e.ack.Done? && out == BlameOf(e)
    ensures Broke(seg + [e], out)
  {
  }

  /** Every run that does not end well stopped for one of the four reasons, and its error is that
      reason's. */
  lemma FailureHasAReason(env: Env, h: History, c: Contract)
    requires !Process(env, h, c).out.Ok?
    ensures Stopped(env, c, Process(env, h, c).seg, Process(env, h, c).out.Failed())
  {
    hide AuthorizeContract, Resolving, Loading, ComputeContract, Saving, SuccessPayload;
    hide Broke, Flawless, Disallowed, GateRefused, Lacked, Keys;
    var auth := AuthorizeContract(env, h, c);
    var s1 := auth.seg;
    if !auth.out.Ok? {
      AuthorizeVerdict(env, h, c);
    } else {
      AuthorizeOrder(env, h, c);
      CompletedIsFlawless(s1, Authorizations(InputUris(c), 0) + Authorizations(OutputUris(c), 0));
      ResolveVerdict(env, h + s1, c);
      var creds := ResolveContract(env, h + s1, c);
      var s2 := s1 + creds.seg;
      if !creds.out.Ok? {
        BrokeLater(s1, creds.seg, creds.out.Failed());
      } else {
        FlawlessBoth(s1, creds.seg);
        LoadedVerdict(env, h, c, s2, creds.out.value);
      }
    }
  }

  lemma ResolveVerdict(env: Env, h: History, c: Contract)
    ensures var s := ResolveContract(env, h, c);
      && (!s.out.Ok? ==> Broke(s.seg, s.out.Failed()))
      && (s.out.Ok? ==>
            && Flawless(s.seg)
            && (forall k | 0 <= k < |c.inputs| :: c.inputs[k].target.role in Keys(s.out.value.inputs))
            && (forall k | 0 <= k < |c.outputs| :: c.outputs[k].target.role in Keys(s.out.value.outputs)))
  {
    hide Resolving, Broke, Flawless, Keys, Resolutions;
    var a := Resolving(env, h, InputNeeds(c), 0, []);
    Totality.ResolvesEveryRole(env, h, InputNeeds(c), 0, []);
    assert forall k | 0 <= k < |c.inputs| :: InputNeeds(c)[k].role == c.inputs[k].target.role;
    if !a.out.Ok? {
      ResolvingVerdict(env, h, InputNeeds(c), 0, []);
    } else {
      ResolvingOrder(env, h, InputNeeds(c), 0, []);
      CompletedIsFlawless(a.seg, Resolutions(InputNeeds(c), 0));
      var b := Resolving(env, h + a.seg, OutputNeeds(c), 0, []);
      Totality.ResolvesEveryRole(env, h + a.seg, OutputNeeds(c), 0, []);
      assert forall k | 0 <= k < |c.outputs| :: OutputNeeds(c)[k].role == c.outputs[k].target.role;
      if !b.out.Ok? {
        ResolvingVerdict(env, h + a.seg, OutputNeeds(c), 0, []);
        BrokeLater(a.seg, b.seg, b.out.Failed());
      } else {
        ResolvingOrder(env, h + a.seg, OutputNeeds(c), 0, []);
        CompletedIsFlawless(b.seg, Resolutions(OutputNeeds(c), 0));
        FlawlessBoth(a.seg, b.seg);
      }
    }
  }

  lemma LoadedVerdict(env: Env, h: History, c: Contract, s2: History, bundle: Bundle)
    requires AuthorizeContract(env, h, c).out.Ok?
             && ResolveContract(env, h + AuthorizeContract(env, h, c).seg, c).out == Ok(bundle)
    requires s2 == AuthorizeContract(env, h, c).seg + ResolveContract(env, h + AuthorizeContract(env, h, c).seg, c).seg
    requires Flawless(s2) && !Process(env, h, c).out.Ok?
    requires forall k | 0 <= k < |c.inputs| :: c.inputs[k].target.role in Keys(bundle.inputs)
    requires forall k | 0 <= k < |c.outputs| :: c.outputs[k].target.role in Keys(bundle.outputs)
    ensures Stopped(env, c, Process(env, h, c).seg, Process(env, h, c).out.Failed())
  {
    hide AuthorizeContract, ResolveContract, Loading, ComputeContract, Saving, SuccessPayload;
    hide Broke, Flawless, Disallowed, GateRefused, Lacked, Keys;
    var loaded := Loading(env, h + s2, c.inputs, bundle.inputs, 0, []);
    var s3 := s2 + loaded.seg;
    if !loaded.out.Ok? {
      LoadingVerdict(env, h + s2, c.inputs, bundle.inputs, 0, []);
      BrokeLater(s2, loaded.seg, loaded.out.Failed());
    } else {
      LoadingOrder(env, h + s2, c.inputs, bundle.inputs, 0, []);
      CompletedIsFlawless(loaded.seg, Reads(c.inputs, 0));
      FlawlessBoth(s2, loaded.seg);
      var computed := ComputeContract(env, h + s3, c, loaded.out.value);
      if !computed.out.Ok? {
        ComputeVerdict(env, h + s3, c, loaded.out.value);
        if Broke(computed.seg, computed.out.Failed()) {
          BrokeLater(s3, computed.seg, computed.out.Failed());
        } else {
          GateRefusedLater(env, s3, computed.seg, computed.out.Failed());
        }
      } else {
        SavedVerdict(env, h, c, s3, loaded.out.value, bundle.outputs);
        var s4 := s3 + computed.seg;
        var saved := Saving(env, h + s4, c.outputs, bundle.outputs, computed.out.value.result.byRole, 0, []);
        if saved.out.Ok? {
          var s := Process(env, h, c);
          NotifyBroke(s4 + saved.seg, s.seg[|s.seg| - 1], s.out.Failed());
        }
      }
    }
  }

  // ---------------------------------------------------------------- and only one

  /** Where the plan computes, and how much comes before and after. */
  lemma ComputesOnce(c: Contract)
    ensures var plan, at := Plan(c), |UpToComputed(c)| - 1;
      && |Uris(c)| <= at && |plan| == at + |c.outputs| + 2 && plan[|plan| - 1] == ToNotify
      && forall i | 0 <= i < |plan| :: plan[i].ToCompute? <==> i == at
  {
    PlanEnd(c);
    AuthorizationsFirst(c);
    ComputesLast(c);
    hide Plan, UpToComputed, Uris;
    forall i | 0 <= i < |Plan(c)| ensures Plan(c)[i].ToCompute? <==> i == |UpToComputed(c)| - 1 {
      if i < |UpToComputed(c)| { assert Plan(c)[i] == UpToComputed(c)[i]; }
    }
  }

  lemma ComputesLast(c: Contract)
    ensures |UpToAuthorized(c)| < |UpToComputed(c)|
    ensures forall i | 0 <= i < |UpToComputed(c)| :: UpToComputed(c)[i].ToCompute? <==> i == |UpToComputed(c)| - 1
  {
    hide Resolutions;
  }

  lemma ComputedAt(c: Contract, seg: History, i: nat)
    requires Conforms(seg, Plan(c)) && i < |seg| && seg[i].DidCompute?
    ensures i == |UpToComputed(c)| - 1
  {
    hide Plan, UpToComputed;
    ComputesOnce(c);
    assert MoveOf(seg[i]) == Plan(c)[i];
  }

  /** The calls of a run leave room for one failure only. */
  lemma OneReason(env: Env, c: Contract, seg: History, a: Outcome<()>, b: Outcome<()>)
    requires Conforms(seg, Plan(c)) && Stopped(env, c, seg, a) && Stopped(env, c, seg, b) && !a.Ok? && !b.Ok?
    ensures a == b
  {
    hide Plan, UpToComputed, Uris, Gate, CheckScheme, Conforms;
    ComputesOnce(c);
    if GateRefused(env, seg, a) || GateRefused(env, seg, b) { ComputedAt(c, seg, |seg| - 1); }
    if Lacked(env, c, seg, a) {
      var k :| LackedAt(env, c, seg, a, k);
      ComputedAt(c, seg, |seg| - 1 - k);
    }
    if Lacked(env, c, seg, b) {
      var k :| LackedAt(env, c, seg, b, k);
      ComputedAt(c, seg, |seg| - 1 - k);
    }
  }

  lemma CompletedHasNone(env: Env, c: Contract, seg: History, out: Outcome<()>)
    requires Completes(seg, Plan(c)) && !out.Ok?
    ensures !Stopped(env, c, seg, out)
  {
    hide Plan, UpToComputed, Uris, Gate, CheckScheme;
    ComputesOnce(c);
    assert MoveOf(seg[|seg| - 1]) == ToNotify;
    forall i: nat | i < |seg| && seg[i].DidCompute? ensures i == |UpToComputed(c)| - 1 { ComputedAt(c, seg, i); }
  }

  /** The calls decide the verdict: a run fails with an error if and only if its calls show one of
      the four reasons for that error. */
  lemma CallsDecide(env: Env, h: History, c: Contract, out: Outcome<()>)
    requires !out.Ok?
    ensures var s := Process(env, h, c);
      Stopped(env, c, s.seg, out) <==> !s.out.Ok? && s.out.Failed() == out
  {
    hide Process, Stopped, Conforms, Completes, Plan;
    var s := Process(env, h, c);
    ProcessOrder(env, h, c);
    if s.out.Ok? {
      CompletedHasNone(env, c, s.seg, out);
    } else {
      FailureHasAReason(env, h, c);
      if Stopped(env, c, s.seg, out) { OneReason(env, c, s.seg, out, s.out.Failed()); }
    }
  }

  /** The same for what `execute` returns or lets through, request id included. */
  lemma RunVerdict(env: Env, h: History, raw: Bytes, out: Outcome<()>)
    requires Admit(env, raw).out.Ok? && !out.Ok?
    ensures var a, r := Admit(env, raw), FullPipeline(env, h, raw);
      Stopped(env, a.out.value, r.seg, out) <==>
        r.result == match out case Typed(e) => Failure(a.requestId, e) case Escaped(x) => Raised(x)
  {
    hide Admit, Process, Stopped;
    CallsDecide(env, h, Admit(env, raw).out.value, out);
  }

  // ---------------------------------------------------------------- every call is asked and answered as it says

  /** The reply recorded in a call is the port's answer after the calls `h`, to what it was given. */
  ghost predicate Answered(p: Ports, h: History, e: Event) {
    match e
    case DidAuthorize(uri, identity, r) => r == p.authorize(h, uri, identity)
    case DidResolve(ref, r) => r == p.resolve(h, ref)
    case DidRead(source, creds, r) => r == p.read(h, source, creds)
    case DidStamp(r) => r == p.now(h)
    case DidCompute(inputs, parameters, context, r) => r == p.compute(h, inputs, parameters, context)
    case DidWrite(sink, payload, creds, w) => w == p.write(h, sink, payload, creds)
    case DidNotify(callback, notice, r) => r == p.notify(h, callback, notice)
    case DidDispatch(job, bytes, requestId, r) => r == p.dispatch(h, job, bytes, requestId)
  }

  ghost predicate Refers(c: Contract, ref: SecretRef) {
    exists need: Need :: need in InputNeeds(c) + OutputNeeds(c) && need.ref == Some(ref)
  }

  /** What a call is given is the contract's. */
  ghost predicate Concerns(c: Contract, e: Event) {
    match e
    case DidAuthorize(uri, identity, _) => uri in Uris(c) && identity == c.identity
    case DidResolve(ref, _) => Refers(c, ref)
    case DidRead(source, _, _) => source in c.inputs
    case DidStamp(_) => true
    case DidCompute(_, parameters, context, _) =>
      parameters == c.parameters && exists time :: context == ContextOf(c, time)
    case DidWrite(sink, _, _, _) => sink in c.outputs
    case DidNotify(callback, notice, _) => callback == c.callback && notice.requestId == c.envelope.requestId
    case DidDispatch(_, _, _, _) => false
  }

  ghost predicate Genuine(p: Ports, h: History, c: Contract, e: Event) {
    Answered(p, h, e) && Concerns(c, e)
  }

  ghost predicate AllGenuine(p: Ports, h: History, c: Contract, seg: History) {
    forall i | 0 <= i < |seg| :: Genuine(p, h + seg[..i], c, seg[i])
  }

  lemma GenuineBoth(p: Ports, h: History, c: Contract, a: History, b: History)
    requires AllGenuine(p, h, c, a) && AllGenuine(p, h + a, c, b)
    ensures AllGenuine(p, h, c, a + b)
  {
    hide Genuine;
    forall i | 0 <= i < |a + b| ensures Genuine(p, h + (a + b)[..i], c, (a + b)[i]) {
      if i < |a| {
        assert (a + b)[..i] == a[..i];
      } else {
        assert h + (a + b)[..i] == (h + a) + b[..i - |a|];
      }
    }
  }

  lemma GenuineOne(p: Ports, h: History, c: Contract, e: Event)
    requires Genuine(p, h, c, e)
    ensures AllGenuine(p, h, c, [e])
  {
    hide Genuine;
    assert h + [e][..0] == h;
  }

  lemma {:induction false} AuthorizingGenuine(env: Env, h: History, c: Contract, uris: seq<string>, i: nat)
    requires i <= |uris| && forall uri | uri in uris :: uri in Uris(c)
    ensures AllGenuine(env.ports, h, c, Authorizing(env, h, uris, c.identity, i).seg)
    decreases |uris| - i
  {
    hide CheckScheme, Uris;
    if i < |uris| && CheckScheme(env.allowed, uris[i], env.leaves.brackets).Ok? {
      var event := DidAuthorize(uris[i], c.identity, env.ports.authorize(h, uris[i], c.identity));
      assert uris[i] in uris;
      GenuineOne(env.ports, h, c, event);
      if event.allowed.Done? {
        AuthorizingGenuine(env, h + [event], c, uris, i + 1);
        GenuineBoth(env.ports, h, c, [event], Authorizing(env, h + [event], uris, c.identity, i + 1).seg);
      }
    }
  }

  lemma {:induction false} ResolvingGenuine(env: Env, h: History, c: Contract, needs: seq<Need>, i: nat,
                                            acc: Dict<Credentials>)
    requires i <= |needs| && forall need: Need | need in needs :: need in InputNeeds(c) + OutputNeeds(c)
    ensures AllGenuine(env.ports, h, c, Resolving(env, h, needs, i, acc).seg)
    decreases |needs| - i
  {
    if i < |needs| {
      match needs[i].ref {
        case None =>
          ResolvingGenuine(env, h, c, needs, i + 1, Put(acc, needs[i].role, NO_CREDENTIALS));
        case Some(ref) =>
          var event := DidResolve(ref, env.ports.resolve(h, ref));
          assert needs[i] in InputNeeds(c) + OutputNeeds(c);
          GenuineOne(env.ports, h, c, event);
          if event.credentials.Done? {
            var more := Put(acc, needs[i].role, event.credentials.value);
            ResolvingGenuine(env, h + [event], c, needs, i + 1, more);
            GenuineBoth(env.ports, h, c, [event], Resolving(env, h + [event], needs, i + 1, more).seg);
          }
      }
    }
  }

  lemma {:induction false} LoadingGenuine(env: Env, h: History, c: Contract, creds: Dict<Credentials>, i: nat,
                                          acc: Dict<Bytes>)
    requires i <= |c.inputs|
    ensures AllGenuine(env.ports, h, c, Loading(env, h, c.inputs, creds, i, acc).seg)
    decreases |c.inputs| - i
  {
    if i < |c.inputs| && Lookup(creds, c.inputs[i].target.role).Ok? {
      var role, cred := c.inputs[i].target.role, Lookup(creds, c.inputs[i].target.role).value;
      var event := DidRead(c.inputs[i], cred, env.ports.read(h, c.inputs[i], cred));
      GenuineOne(env.ports, h, c, event);
      if event.bytes.Done? {
        var more := Put(acc, role, event.bytes.value);
        LoadingGenuine(env, h + [event], c, creds, i + 1, more);
        GenuineBoth(env.ports, h, c, [event], Loading(env, h + [event], c.inputs, creds, i + 1, more).seg);
      }
    }
  }

  lemma ComputeGenuine(env: Env, h: History, c: Contract, inputs: Dict<Bytes>)
    ensures AllGenuine(env.ports, h, c, ComputeContract(env, h, c, inputs).seg)
  {
    hide Gate, ContextOf;
    var stamp := DidStamp(env.ports.now(h));
    GenuineOne(env.ports, h, c, stamp);
    if stamp.time.Done? {
      var context := ContextOf(c, stamp.time.value);
      var event := DidCompute(inputs, c.parameters, context,
                              env.ports.compute(h + [stamp], inputs, c.parameters, context));
      GenuineOne(env.ports, h + [stamp], c, event);
      GenuineBoth(env.ports, h, c, [stamp], [event]);
      assert [stamp] + [event] == [stamp, event];
    }
  }

  lemma {:induction false} SavingGenuine(env: Env, h: History, c: Contract, creds: Dict<Credentials>,
                                         byRole: map<string, Bytes>, i: nat, acc: Dict<WriteReceipt>)
    requires i <= |c.outputs|
    ensures AllGenuine(env.ports, h, c, Saving(env, h, c.outputs, creds, byRole, i, acc).seg)
    decreases |c.outputs| - i
  {
    if i < |c.outputs| {
      var role := c.outputs[i].target.role;
      if role in byRole && Lookup(creds, role).Ok? {
        var cred := Lookup(creds, role).value;
        var event := DidWrite(c.outputs[i], byRole[role], cred, env.ports.write(h, c.outputs[i], byRole[role], cred));
        GenuineOne(env.ports, h, c, event);
        if event.written.reply.Done? {
          var more := Put(acc, role, event.written.reply.value);
          SavingGenuine(env, h + [event], c, creds, byRole, i + 1, more);
          GenuineBoth(env.ports, h, c, [event], Saving(env, h + [event], c.outputs, creds, byRole, i + 1, more).seg);
        }
      }
    }
  }

  lemma AuthorizeGenuine(env: Env, h: History, c: Contract)
    ensures AllGenuine(env.ports, h, c, AuthorizeContract(env, h, c).seg)
  {
    assert forall uri :: uri in InputUris(c) || uri in OutputUris(c) ==> uri in Uris(c);
    hide Authorizing, AllGenuine, Uris;
    AuthorizingGenuine(env, h, c, InputUris(c), 0);
    var a := Authorizing(env, h, InputUris(c), c.identity, 0).seg;
    AuthorizingGenuine(env, h + a, c, OutputUris(c), 0);
    GenuineBoth(env.ports, h, c, a, Authorizing(env, h + a, OutputUris(c), c.identity, 0).seg);
  }

  lemma ResolveGenuine(env: Env, h: History, c: Contract)
    ensures AllGenuine(env.ports, h, c, ResolveContract(env, h, c).seg)
  {
    hide Resolving, AllGenuine;
    ResolvingGenuine(env, h, c, InputNeeds(c), 0, []);
    var a := Resolving(env, h, InputNeeds(c), 0, []).seg;
    ResolvingGenuine(env, h + a, c, OutputNeeds(c), 0, []);
    GenuineBoth(env.ports, h, c, a, Resolving(env, h + a, OutputNeeds(c), 0, []).seg);
  }

  /** Every call of a run is about the run's contract, and holds what its port answers after exactly
      the calls before it. */
  lemma RepliesAreThePorts(env: Env, h: History, c: Contract)
    ensures AllGenuine(env.ports, h, c, Process(env, h, c).seg)
  {
    hide AuthorizeContract, ResolveContract, Loading, ComputeContract, Saving, AllGenuine;
    var p, s := env.ports, Process(env, h, c);
    var auth := AuthorizeContract(env, h, c);
    var s1 := auth.seg;
    AuthorizeGenuine(env, h, c);
    if auth.out.Ok? {
      var creds := ResolveContract(env, h + s1, c);
      var s2 := s1 + creds.seg;
      ResolveGenuine(env, h + s1, c);
      GenuineBoth(p, h, c, s1, creds.seg);
      if creds.out.Ok? {
        var loaded := Loading(env, h + s2, c.inputs, creds.out.value.inputs, 0, []);
        var s3 := s2 + loaded.seg;
        LoadingGenuine(env, h + s2, c, creds.out.value.inputs, 0, []);
        GenuineBoth(p, h, c, s2, loaded.seg);
        if loaded.out.Ok? {
          var computed := ComputeContract(env, h + s3, c, loaded.out.value);
          var s4 := s3 + computed.seg;
          ComputeGenuine(env, h + s3, c, loaded.out.value);
          GenuineBoth(p, h, c, s3, computed.seg);
          if computed.out.Ok? {
            var result := computed.out.value.result;
            var saved := Saving(env, h + s4, c.outputs, creds.out.value.outputs, result.byRole, 0, []);
            var s5 := s4 + saved.seg;
            SavingGenuine(env, h + s4, c, creds.out.value.outputs, result.byRole, 0, []);
            GenuineBoth(p, h, c, s4, saved.seg);
            if saved.out.Ok? {
              GenuineOne(p, h + s5, c, s.seg[|s.seg| - 1]);
              GenuineBoth(p, h, c, s5, [s.seg[|s.seg| - 1]]);
            }
          }
        }
      }
    }
  }

  // ---------------------------------------------------------------- what escapes

  /** The last call let an exception through. */
  ghost predicate Crashed(seg: History, x: Escape) {
    x.Foreign? && Broke(seg, Escaped(x))
  }

  /** The URI whose turn it was has a bracketed host the URL parser refuses. */
  ghost predicate MalformedHost(env: Env, c: Contract, seg: History, x: Escape) {
    && x == BadValue && Flawless(seg) && |seg| < |Uris(c)|
    && Uris(c)[|seg|] != "" && UrlParse(Uris(c)[|seg|], env.leaves.brackets).None?
  }

  lemma SchemeRaises(allowed: set<string>, uri: string, brackets: BracketRule, x: Escape)
    ensures CheckScheme(allowed, uri, brackets) == Escaped(x) <==>
            uri != "" && UrlParse(uri, brackets).None? && x == BadValue
  {
    hide UrlParse, HasDoubleSlash, Segments;
  }

  lemma CallsBreakWithForeign(e: Event, x: Escape)
    requires BlameOf(e) == Escaped(x)
    ensures x.Foreign?
  {
  }

  /** With the sections of its contract validated, the gate never lets an exception through. */
  lemma GateNeverRaises(byRole: map<string, Bytes>, c: Contract, time: string, reader: ReadoutReader, l: Leaves)
    requires ValidSections(c, l) && |c.envelope.requestId| == 36
    ensures !Gate(byRole, ContextOf(c, time), reader).Escaped?
  {
    BlocksNeverRaise(c, l, time);
    hide ContextOf, ValidSections, ComputeContext.Request, ComputeContext.Service;
  }

  /** The exceptions a run lets through: a crash of its last call, the missing output, and the
      malformed host; nothing else, and never the gate's. */
  lemma RaisedExactly(env: Env, h: History, raw: Bytes, x: Escape)
    requires Admit(env, raw).out.Ok? && env.leaves.Stable()
    ensures var c, r := Admit(env, raw).out.value, FullPipeline(env, h, raw);
      r.result == Raised(x) <==>
        Crashed(r.seg, x) || MalformedHost(env, c, r.seg, x) || Lacked(env, c, r.seg, Escaped(x))
  {
    hide *;
    AdmittedSections(env, raw);
    var c := Admit(env, raw).out.value;
    RunVerdict(env, h, raw, Escaped(x));
    RunIsProcessed(env, h, raw);
    EscapesExactly(env, h, c, x);
  }

  /** A run of an admitted message is the processing of its contract. */
  lemma RunIsProcessed(env: Env, h: History, raw: Bytes)
    requires Admit(env, raw).out.Ok?
    ensures FullPipeline(env, h, raw).result.Success? <==> Process(env, h, Admit(env, raw).out.value).out.Ok?
    ensures FullPipeline(env, h, raw).seg == Process(env, h, Admit(env, raw).out.value).seg
  {
    hide Admit, Process;
  }

  lemma EscapesExactly(env: Env, h: History, c: Contract, x: Escape)
    requires ValidSections(c, env.leaves) && |c.envelope.requestId| == 36
    ensures var seg := Process(env, h, c).seg;
      Stopped(env, c, seg, Escaped(x)) <==>
        Crashed(seg, x) || MalformedHost(env, c, seg, x) || Lacked(env, c, seg, Escaped(x))
  {
    hide Process, ValidSections, Uris, Gate, ContextOf, CheckScheme, UrlParse, Answered;
    var seg := Process(env, h, c).seg;
    RepliesAreThePorts(env, h, c);
    if Broke(seg, Escaped(x)) { CallsBreakWithForeign(seg[|seg| - 1], x); }
    if |seg| < |Uris(c)| { SchemeRaises(env.allowed, Uris(c)[|seg|], env.leaves.brackets, x); }
    if GateRefused(env, seg, Escaped(x)) {
      var e := seg[|seg| - 1];
      assert Genuine(env.ports, h + seg[..|seg| - 1], c, e);
      var time :| e.context == ContextOf(c, time);
      GateNeverRaises(e.result.value.byRole, c, time, env.reader, env.leaves);
      assert false;
    }
  }

  lemma AdmittedSections(env: Env, raw: Bytes)
    requires Admit(env, raw).out.Ok? && env.leaves.Stable()
    ensures var c := Admit(env, raw).out.value; ValidSections(c, env.leaves) && |c.envelope.requestId| == 36
  {
    hide ReadSections, CheckRoles, UnsupportedVersion, Distinct, ValidSections;
    var payload := env.ports.decode(raw).value;
    assert Validate(Obj(payload), env.leaves, env.params) == Some(Admit(env, raw).out.value);
    SectionsAreValid(Obj(payload), env.leaves);
    ParametersApart(ReadSections(Obj(payload), env.leaves).value, env.leaves, Admit(env, raw).out.value.parameters);
  }

  lemma ParametersApart(c: Contract, l: Leaves, p: Json)
    requires ValidSections(c, l) && l.Stable()
    ensures ValidSections(c.(parameters := p), l) && |c.envelope.requestId| == 36
  {
    hide ValidInput, ValidOutput, ValidIdentity, ValidReferences, ValidService, ValidCallback;
    assert l.uuid(Str(c.envelope.requestId)).Some?;
  }
}
