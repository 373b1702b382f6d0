/** The order of effects, over every run and every behaviour of the ports. */
module EffectOrder {
  import opened Dicts
  import opened Json
  import opened Security
  import opened SecretRefs
  import opened Contracts
  import opened Readouts
  import opened Ports
  import opened Pipeline

  /** A call without its replies: what the contract alone decides. */
  datatype Move =
    | ToAuthorize(uri: string) | ToResolve(ref: SecretRef) | ToRead(source: InputSpec)
    | ToStamp | ToCompute | ToWrite(sink: OutputSpec) | ToNotify | ToDispatch

  function MoveOf(e: Event): Move {
    match e
    case DidAuthorize(uri, _, _) => ToAuthorize(uri)
    case DidResolve(ref, _) => ToResolve(ref)
    case DidRead(source, _, _) => ToRead(source)
    case DidStamp(_) => ToStamp
    case DidCompute(_, _, _, _) => ToCompute
    case DidWrite(sink, _, _, _) => ToWrite(sink)
    case DidNotify(_, _, _) => ToNotify
    case DidDispatch(_, _, _, _) => ToDispatch
  }

  function Authorizations(uris: seq<string>, i: nat): (plan: seq<Move>)
    requires i <= |uris|
    ensures |plan| == |uris| - i && forall k | 0 <= k < |plan| :: plan[k] == ToAuthorize(uris[i + k])
  {
    seq(|uris| - i, k requires 0 <= k < |uris| - i => ToAuthorize(uris[i + k]))
  }

  function Resolutions(needs: seq<Need>, i: nat): (plan: seq<Move>)
    requires i <= |needs|
    ensures forall k | 0 <= k < |plan| :: plan[k].ToResolve?
    decreases |needs| - i
  {
    if i == |needs| then []
    else (match needs[i].ref case None => [] case Some(ref) => [ToResolve(ref)]) + Resolutions(needs, i + 1)
  }

  function Reads(specs: seq<InputSpec>, i: nat): (plan: seq<Move>)
    requires i <= |specs|
    ensures |plan| == |specs| - i && forall k | 0 <= k < |plan| :: plan[k] == ToRead(specs[i + k])
  {
    seq(|specs| - i, k requires 0 <= k < |specs| - i => ToRead(specs[i + k]))
  }

  function Writes(specs: seq<OutputSpec>, i: nat): (plan: seq<Move>)
    requires i <= |specs|
    ensures |plan| == |specs| - i && forall k | 0 <= k < |plan| :: plan[k] == ToWrite(specs[i + k])
  {
    seq(|specs| - i, k requires 0 <= k < |specs| - i => ToWrite(specs[i + k]))
  }

  function Uris(c: Contract): seq<string> { InputUris(c) + OutputUris(c) }

  /** The calls follow the plan as far as they go, and only the last may have failed. */
  ghost predicate Conforms(seg: History, plan: seq<Move>) {
    && |seg| <= |plan|
    && (forall i | 0 <= i < |seg| :: MoveOf(seg[i]) == plan[i])
    && (forall i | 0 <= i < |seg| - 1 :: seg[i].Succeeded())
  }

  /** The calls are the whole plan, and all of them succeeded. */
  ghost predicate Completes(seg: History, plan: seq<Move>) {
    && |seg| == |plan|
    && (forall i | 0 <= i < |seg| :: MoveOf(seg[i]) == plan[i])
    && (forall i | 0 <= i < |seg| :: seg[i].Succeeded())
  }

  lemma Then(a: History, p: seq<Move>, b: History, q: seq<Move>)
    requires Completes(a, p) && Conforms(b, q)
    ensures Conforms(a + b, p + q)
    ensures Completes(b, q) ==> Completes(a + b, p + q)
  {
  }

  lemma Stop(a: History, p: seq<Move>, q: seq<Move>)
    requires Conforms(a, p)
    ensures Conforms(a, p + q)
  {
  }

  lemma {:induction false} AuthorizingOrder(env: Env, h: History, uris: seq<string>, identity: Identity, i: nat)
    requires i <= |uris|
    ensures var s := Authorizing(env, h, uris, identity, i);
      && Conforms(s.seg, Authorizations(uris, i))
      && (s.out.Ok? ==> Completes(s.seg, Authorizations(uris, i)))
      && (s.out.Ok? ==> forall k | i <= k < |uris| :: CheckScheme(env.allowed, uris[k], env.leaves.brackets).Ok?)
    decreases |uris| - i
  {
    hide CheckScheme;
    if i < |uris| && CheckScheme(env.allowed, uris[i], env.leaves.brackets).Ok? {
      var reply := env.ports.authorize(h, uris[i], identity);
      var event := DidAuthorize(uris[i], identity, reply);
      assert Authorizations(uris, i) == [ToAuthorize(uris[i])] + Authorizations(uris, i + 1);
      if reply.Done? {
        AuthorizingOrder(env, h + [event], uris, identity, i + 1);
        Then([event], [MoveOf(event)], Authorizing(env, h + [event], uris, identity, i + 1).seg,
             Authorizations(uris, i + 1));
      }
    }
  }

  lemma {:induction false} ResolvingOrder(env: Env, h: History, needs: seq<Need>, i: nat, acc: Dict<Credentials>)
    requires i <= |needs|
    ensures var s := Resolving(env, h, needs, i, acc);
      && Conforms(s.seg, Resolutions(needs, i))
      && (s.out.Ok? ==> Completes(s.seg, Resolutions(needs, i)))
    decreases |needs| - i
  {
    hide Put, Get;
    if i < |needs| {
      match needs[i].ref {
        case None =>
          ResolvingOrder(env, h, needs, i + 1, Put(acc, needs[i].role, NO_CREDENTIALS));
          assert [] + Resolutions(needs, i + 1) == Resolutions(needs, i + 1);
        case Some(ref) =>
          var reply := env.ports.resolve(h, ref);
          var event := DidResolve(ref, reply);
          if reply.Done? {
            var more := Put(acc, needs[i].role, reply.value);
            ResolvingOrder(env, h + [event], needs, i + 1, more);
            Then([event], [MoveOf(event)], Resolving(env, h + [event], needs, i + 1, more).seg,
                 Resolutions(needs, i + 1));
          }
      }
    }
  }

  lemma {:induction false} LoadingOrder(env: Env, h: History, specs: seq<InputSpec>, creds: Dict<Credentials>, i: nat,
                                        acc: Dict<Bytes>)
    requires i <= |specs|
    ensures var s := Loading(env, h, specs, creds, i, acc);
      && Conforms(s.seg, Reads(specs, i))
      && (s.out.Ok? ==> Completes(s.seg, Reads(specs, i)))
    decreases |specs| - i
  {
    hide Put, Get;
    if i < |specs| && Lookup(creds, specs[i].target.role).Ok? {
      var cred := Lookup(creds, specs[i].target.role).value;
      var reply := env.ports.read(h, specs[i], cred);
      var event := DidRead(specs[i], cred, reply);
      assert Reads(specs, i) == [ToRead(specs[i])] + Reads(specs, i + 1);
      if reply.Done? {
        var more := Put(acc, specs[i].target.role, reply.value);
        LoadingOrder(env, h + [event], specs, creds, i + 1, more);
        Then([event], [MoveOf(event)], Loading(env, h + [event], specs, creds, i + 1, more).seg, Reads(specs, i + 1));
      }
    }
  }

  lemma {:induction false} SavingOrder(env: Env, h: History, specs: seq<OutputSpec>, creds: Dict<Credentials>,
                                       byRole: map<string, Bytes>, i: nat, acc: Dict<WriteReceipt>)
    requires i <= |specs|
    ensures var s := Saving(env, h, specs, creds, byRole, i, acc);
      && Conforms(s.seg, Writes(specs, i))
      && (s.out.Ok? ==> Completes(s.seg, Writes(specs, i)))
    decreases |specs| - i
  {
    hide Put, Get;
    if i < |specs| {
      var role := specs[i].target.role;
      if role in byRole && Lookup(creds, role).Ok? {
        var cred := Lookup(creds, role).value;
        var written := env.ports.write(h, specs[i], byRole[role], cred);
        var event := DidWrite(specs[i], byRole[role], cred, written);
        assert Writes(specs, i) == [ToWrite(specs[i])] + Writes(specs, i + 1);
        if written.reply.Done? {
          var more := Put(acc, role, written.reply.value);
          SavingOrder(env, h + [event], specs, creds, byRole, i + 1, more);
          Then([event], [MoveOf(event)], Saving(env, h + [event], specs, creds, byRole, i + 1, more).seg,
               Writes(specs, i + 1));
        }
      }
    }
  }

  /** A write is given what the backend produced for the role of its specification. */
  ghost predicate WritesOf(e: Event, byRole: map<string, Bytes>) {
    e.DidWrite? && e.sink.target.role in byRole && e.payload == byRole[e.sink.target.role]
  }

  lemma {:induction false} SavingPayloads(env: Env, h: History, specs: seq<OutputSpec>, creds: Dict<Credentials>,
                                          byRole: map<string, Bytes>, i: nat, acc: Dict<WriteReceipt>)
    requires i <= |specs|
    ensures forall e | e in Saving(env, h, specs, creds, byRole, i, acc).seg :: WritesOf(e, byRole) && e.sink in specs
    decreases |specs| - i
  {
    if i < |specs| {
      var role := specs[i].target.role;
      if role in byRole && Lookup(creds, role).Ok? {
        var written := env.ports.write(h, specs[i], byRole[role], Lookup(creds, role).value);
        var event := DidWrite(specs[i], byRole[role], Lookup(creds, role).value, written);
        if written.reply.Done? {
          SavingPayloads(env, h + [event], specs, creds, byRole, i + 1, Put(acc, role, written.reply.value));
        }
      }
    }
  }

  lemma AuthorizeOrder(env: Env, h: History, c: Contract)
    ensures var s, plan := AuthorizeContract(env, h, c),
            Authorizations(InputUris(c), 0) + Authorizations(OutputUris(c), 0);
      && Conforms(s.seg, plan)
      && (s.out.Ok? ==> Completes(s.seg, plan))
      && (s.out.Ok? ==> forall uri :: uri in Uris(c) ==> CheckScheme(env.allowed, uri, env.leaves.brackets).Ok?)
  {
    hide Authorizing, CheckScheme, Conforms, Completes;
    var p, q := Authorizations(InputUris(c), 0), Authorizations(OutputUris(c), 0);
    var a := Authorizing(env, h, InputUris(c), c.identity, 0);
    AuthorizingOrder(env, h, InputUris(c), c.identity, 0);
    if a.out.Ok? {
      AuthorizingOrder(env, h + a.seg, OutputUris(c), c.identity, 0);
      Then(a.seg, p, Authorizing(env, h + a.seg, OutputUris(c), c.identity, 0).seg, q);
    } else {
      Stop(a.seg, p, q);
    }
  }

  lemma ResolveOrder(env: Env, h: History, c: Contract)
    ensures var s, plan := ResolveContract(env, h, c), Resolutions(InputNeeds(c), 0) + Resolutions(OutputNeeds(c), 0);
      && Conforms(s.seg, plan)
      && (s.out.Ok? ==> Completes(s.seg, plan))
  {
    hide Resolving, Conforms, Completes;
    var p, q := Resolutions(InputNeeds(c), 0), Resolutions(OutputNeeds(c), 0);
    var a := Resolving(env, h, InputNeeds(c), 0, []);
    ResolvingOrder(env, h, InputNeeds(c), 0, []);
    if a.out.Ok? {
      ResolvingOrder(env, h + a.seg, OutputNeeds(c), 0, []);
      Then(a.seg, p, Resolving(env, h + a.seg, OutputNeeds(c), 0, []).seg, q);
    } else {
      Stop(a.seg, p, q);
    }
  }

  lemma ComputeOrder(env: Env, h: History, c: Contract, inputs: Dict<Bytes>)
    ensures var s := ComputeContract(env, h, c, inputs);
      && Conforms(s.seg, [ToStamp, ToCompute])
      && (s.out.Ok? ==> Completes(s.seg, [ToStamp, ToCompute]))
  {
    hide Gate, ContextOf;
  }

  /** The plan of the contract up to each stage of its processing. */
  function UpToAuthorized(c: Contract): seq<Move> {
    Authorizations(InputUris(c), 0) + Authorizations(OutputUris(c), 0)
  }
  function UpToResolved(c: Contract): seq<Move> {
    UpToAuthorized(c) + (Resolutions(InputNeeds(c), 0) + Resolutions(OutputNeeds(c), 0))
  }
  function UpToRead(c: Contract): seq<Move> { UpToResolved(c) + Reads(c.inputs, 0) }
  function UpToComputed(c: Contract): seq<Move> { UpToRead(c) + [ToStamp, ToCompute] }
  function UpToWritten(c: Contract): seq<Move> { UpToComputed(c) + Writes(c.outputs, 0) }

  /** Authorize every URI, inputs then outputs; resolve every reference, inputs then outputs; read
      every input; stamp; compute; write every output; notify: each list in contract order. */
  function Plan(c: Contract): seq<Move> { UpToWritten(c) + [ToNotify] }

  lemma PlanPrefixes(c: Contract)
    ensures UpToAuthorized(c) <= Plan(c) && UpToResolved(c) <= Plan(c) && UpToRead(c) <= Plan(c)
    ensures UpToComputed(c) <= Plan(c) && UpToWritten(c) <= Plan(c)
  {
    hide Authorizations, Resolutions, Reads, Writes;
    assert UpToAuthorized(c) <= UpToResolved(c) <= UpToRead(c) <= UpToComputed(c) <= UpToWritten(c) <= Plan(c);
  }

  lemma StopAt(a: History, p: seq<Move>, plan: seq<Move>)
    requires Conforms(a, p) && p <= plan
    ensures Conforms(a, plan)
  {
  }

  /** The effects of processing a contract are a prefix of its plan, all but the last successful,
      and the whole plan when it ends well. */
  lemma ProcessOrder(env: Env, h: History, c: Contract)
    ensures var s := Process(env, h, c);
      && Conforms(s.seg, Plan(c))
      && (s.out.Ok? ==> Completes(s.seg, Plan(c)))
  {
    hide AuthorizeContract, ResolveContract, Loading, ComputeContract, Saving, SuccessPayload;
    hide Conforms, Completes, Resolutions;
    PlanPrefixes(c);
    var auth := AuthorizeContract(env, h, c);
    var s1 := auth.seg;
    AuthorizeOrder(env, h, c);
    StopAt(s1, UpToAuthorized(c), Plan(c));
    if auth.out.Ok? {
      var creds := ResolveContract(env, h + s1, c);
      var s2 := s1 + creds.seg;
      ResolveOrder(env, h + s1, c);
      Then(s1, UpToAuthorized(c), creds.seg, Resolutions(InputNeeds(c), 0) + Resolutions(OutputNeeds(c), 0));
      StopAt(s2, UpToResolved(c), Plan(c));
      if creds.out.Ok? {
        LoadedOrder(env, h, c, s2, creds.out.value);
      }
    }
  }

  /** The same from the reads on. */
  lemma LoadedOrder(env: Env, h: History, c: Contract, s2: History, bundle: Bundle)
    requires Completes(s2, UpToResolved(c))
    ensures var loaded := Loading(env, h + s2, c.inputs, bundle.inputs, 0, []);
      var s3 := s2 + loaded.seg;
      && (!loaded.out.Ok? ==> Conforms(s3, Plan(c)))
      && (loaded.out.Ok? ==>
            var computed := ComputeContract(env, h + s3, c, loaded.out.value);
            var s4 := s3 + computed.seg;
            && (!computed.out.Ok? ==> Conforms(s4, Plan(c)))
            && (computed.out.Ok? ==>
                  var saved := Saving(env, h + s4, c.outputs, bundle.outputs, computed.out.value.result.byRole, 0, []);
                  var s5 := s4 + saved.seg;
                  && (!saved.out.Ok? ==> Conforms(s5, Plan(c)))
                  && (saved.out.Ok? ==> forall last: Event :: last.DidNotify? ==>
                        && Conforms(s5 + [last], Plan(c))
                        && (last.Succeeded() ==> Completes(s5 + [last], Plan(c))))))
  {
    hide Loading, ComputeContract, Saving, Conforms, Completes;
    PlanPrefixes(c);
    var loaded := Loading(env, h + s2, c.inputs, bundle.inputs, 0, []);
    var s3 := s2 + loaded.seg;
    LoadingOrder(env, h + s2, c.inputs, bundle.inputs, 0, []);
    Then(s2, UpToResolved(c), loaded.seg, Reads(c.inputs, 0));
    StopAt(s3, UpToRead(c), Plan(c));
    if loaded.out.Ok? {
      var computed := ComputeContract(env, h + s3, c, loaded.out.value);
      var s4 := s3 + computed.seg;
      ComputeOrder(env, h + s3, c, loaded.out.value);
      Then(s3, UpToRead(c), computed.seg, [ToStamp, ToCompute]);
      StopAt(s4, UpToComputed(c), Plan(c));
      if computed.out.Ok? {
        var byRole := computed.out.value.result.byRole;
        var saved := Saving(env, h + s4, c.outputs, bundle.outputs, byRole, 0, []);
        SavingOrder(env, h + s4, c.outputs, bundle.outputs, byRole, 0, []);
        Then(s4, UpToComputed(c), saved.seg, Writes(c.outputs, 0));
        StopAt(s4 + saved.seg, UpToWritten(c), Plan(c));
        if saved.out.Ok? {
          forall last: Event | last.DidNotify?
            ensures Conforms(s4 + saved.seg + [last], Plan(c))
            ensures last.Succeeded() ==> Completes(s4 + saved.seg + [last], Plan(c))
          {
            OneMore(last);
            Then(s4 + saved.seg, UpToWritten(c), [last], [ToNotify]);
          }
        }
      }
    }
  }

  lemma OneMore(last: Event)
    ensures Conforms([last], [MoveOf(last)]) && (last.Succeeded() ==> Completes([last], [MoveOf(last)]))
  {
  }

  // ---------------------------------------------------------------- what the order means

  /** Over every run: nothing before a contract is admitted; then the effects follow its plan. */
  lemma RunOrder(env: Env, h: History, raw: Bytes)
    ensures var a, r := Admit(env, raw), FullPipeline(env, h, raw);
      && (!a.out.Ok? ==> r.seg == [])
      && (a.out.Ok? ==> Conforms(r.seg, Plan(a.out.value)))
      && (r.result.Success? ==> a.out.Ok? && Completes(r.seg, Plan(a.out.value)))
  {
    hide Admit, Process, Conforms, Completes;
    if Admit(env, raw).out.Ok? {
      ProcessOrder(env, h, Admit(env, raw).out.value);
    }
  }

  lemma AuthorizationsFirst(c: Contract)
    ensures |UpToAuthorized(c)| == |Uris(c)|
    ensures forall i | 0 <= i < |Uris(c)| :: Plan(c)[i] == ToAuthorize(Uris(c)[i])
    ensures forall i | |Uris(c)| <= i < |Plan(c)| :: !Plan(c)[i].ToAuthorize?
  {
    hide Resolutions;
  }

  lemma RefusedStops(env: Env, h: History, c: Contract)
    ensures var auth := AuthorizeContract(env, h, c);
      auth.out.Ok? || (Process(env, h, c).seg == auth.seg && Process(env, h, c).out == auth.out.Failed())
  {
    hide AuthorizeContract, ResolveContract, Loading, ComputeContract, Saving, SuccessPayload;
  }

  lemma AuthorizedLength(c: Contract)
    ensures Authorizations(InputUris(c), 0) + Authorizations(OutputUris(c), 0) == UpToAuthorized(c)
  {
  }

  /** Whatever a run does beyond asking the authorizer, every URI of the contract had passed the
      allowlist and had been allowed by the authorizer before. */
  lemma AuthorizedBeforeAnythingElse(env: Env, h: History, c: Contract, i: nat, uri: string)
    requires i < |Process(env, h, c).seg| && !Process(env, h, c).seg[i].DidAuthorize? && uri in Uris(c)
    ensures var seg := Process(env, h, c).seg;
      && CheckScheme(env.allowed, uri, env.leaves.brackets).Ok?
      && exists j :: 0 <= j < i && seg[j].DidAuthorize? && seg[j].uri == uri && seg[j].Succeeded()
  {
    hide Process, Plan, AuthorizeContract, CheckScheme, UpToAuthorized, Uris;
    var seg, n := Process(env, h, c).seg, |Uris(c)|;
    RefusedStops(env, h, c);
    ProcessOrder(env, h, c);
    AuthorizationsFirst(c);
    AuthorizeOrder(env, h, c);
    AuthorizedLength(c);
    assert MoveOf(seg[i]) == Plan(c)[i];
    assert i >= n;
    var j :| 0 <= j < n && Uris(c)[j] == uri;
    assert MoveOf(seg[j]) == ToAuthorize(uri);
  }

  /** A successful compute call of this contract, whose readout passed the gate. */
  ghost predicate Gated(env: Env, c: Contract, e: Event) {
    && e.DidCompute? && e.result.Done?
    && (exists time :: e.context == ContextOf(c, time))
    && e.parameters == c.parameters
    && Gate(e.result.value.byRole, e.context, env.reader).Ok?
  }

  lemma ComputeGates(env: Env, h: History, c: Contract, inputs: Dict<Bytes>)
    requires ComputeContract(env, h, c, inputs).out.Ok?
    ensures var s := ComputeContract(env, h, c, inputs);
      |s.seg| == 2 && Gated(env, c, s.seg[1]) && s.seg[1].result.value == s.out.value.result
  {
    hide Gate, ContextOf;
  }

  lemma NoWriteIn(seg: History, plan: seq<Move>)
    requires Conforms(seg, plan) && forall k | 0 <= k < |plan| :: !plan[k].ToWrite?
    ensures forall e | e in seg :: !e.DidWrite?
  {
    forall e | e in seg ensures !e.DidWrite? {
      var k :| 0 <= k < |seg| && seg[k] == e;
      assert MoveOf(seg[k]) == plan[k];
    }
  }

  lemma NoWritePlanned(c: Contract)
    ensures forall k | 0 <= k < |UpToComputed(c)| :: !UpToComputed(c)[k].ToWrite? && !UpToComputed(c)[k].ToNotify?
    ensures UpToAuthorized(c) <= UpToComputed(c) && UpToResolved(c) <= UpToComputed(c) && UpToRead(c) <= UpToComputed(c)
  {
    hide Resolutions;
  }

  /** No write before the gate: every write of a run comes after a compute call whose result passed
      it, and stores what that result holds for the role of a declared output. */
  lemma WritesAreGated(env: Env, h: History, c: Contract, i: nat)
    requires i < |Process(env, h, c).seg| && Process(env, h, c).seg[i].DidWrite?
    ensures var seg := Process(env, h, c).seg;
      exists j :: 0 <= j < i && Gated(env, c, seg[j])
               && WritesOf(seg[i], seg[j].result.value.byRole) && seg[i].sink in c.outputs
  {
    hide AuthorizeContract, ResolveContract, Loading, ComputeContract, Saving, SuccessPayload, UpToComputed;
    hide Conforms, UpToAuthorized, UpToResolved, UpToRead, Gated, WritesOf;
    hide Completes, Resolutions, Authorizations;
    NoWritePlanned(c);
    var seg, plan := Process(env, h, c).seg, UpToComputed(c);
    assert seg[i] in seg;
    var auth := AuthorizeContract(env, h, c);
    var s1 := auth.seg;
    AuthorizeOrder(env, h, c);
    AuthorizedLength(c);
    StopAt(s1, UpToAuthorized(c), plan);
    NoWriteIn(s1, plan);
    assert auth.out.Ok?;
    var creds := ResolveContract(env, h + s1, c);
    var s2 := s1 + creds.seg;
    ResolveOrder(env, h + s1, c);
    Then(s1, UpToAuthorized(c), creds.seg, Resolutions(InputNeeds(c), 0) + Resolutions(OutputNeeds(c), 0));
    ResolvedPlan(c);
    StopAt(s2, UpToResolved(c), plan);
    NoWriteIn(s2, plan);
    assert creds.out.Ok?;
    var loaded := Loading(env, h + s2, c.inputs, creds.out.value.inputs, 0, []);
    var s3 := s2 + loaded.seg;
    LoadingOrder(env, h + s2, c.inputs, creds.out.value.inputs, 0, []);
    Then(s2, UpToResolved(c), loaded.seg, Reads(c.inputs, 0));
    StopAt(s3, UpToRead(c), plan);
    NoWriteIn(s3, plan);
    assert loaded.out.Ok?;
    var computed := ComputeContract(env, h + s3, c, loaded.out.value);
    var s4 := s3 + computed.seg;
    ComputeOrder(env, h + s3, c, loaded.out.value);
    Then(s3, UpToRead(c), computed.seg, [ToStamp, ToCompute]);
    NoWriteIn(s4, plan);
    assert computed.out.Ok?;
    ComputeGates(env, h + s3, c, loaded.out.value);
    var byRole := computed.out.value.result.byRole;
    var saved := Saving(env, h + s4, c.outputs, creds.out.value.outputs, byRole, 0, []);
    SavingPayloads(env, h + s4, c.outputs, creds.out.value.outputs, byRole, 0, []);
    WriteIsSaved(s4, saved.seg, seg, i);
    var j := |s3| + 1;
    assert seg[j] == s4[j] == computed.seg[1];
  }

  lemma ResolvedPlan(c: Contract)
    ensures UpToResolved(c) == UpToAuthorized(c) + (Resolutions(InputNeeds(c), 0) + Resolutions(OutputNeeds(c), 0))
    ensures UpToRead(c) == UpToResolved(c) + Reads(c.inputs, 0)
    ensures UpToComputed(c) == UpToRead(c) + [ToStamp, ToCompute]
  {
  }

  lemma WriteIsSaved(before: History, saved: History, seg: History, i: nat)
    requires forall e | e in before :: !e.DidWrite?
    requires i < |seg| && seg[i].DidWrite?
    requires seg == before + saved || (|seg| == |before + saved| + 1 && before + saved <= seg
                                       && seg[|seg| - 1].DidNotify?)
    ensures |before| <= i && seg[i] in saved
  {
    assert forall k | 0 <= k < |before| :: seg[k] == before[k] && before[k] in before;
    assert i < |before| + |saved|;
    assert seg[i] == saved[i - |before|];
  }

  /** The calls just before position `i` are one successful write per output, in contract order. */
  ghost predicate WroteAllBefore(seg: History, i: nat, outputs: seq<OutputSpec>) {
    && |outputs| <= i <= |seg|
    && forall k | 0 <= k < |outputs| :: WroteAt(seg, i - |outputs| + k, outputs[k])
  }

  ghost predicate WroteAt(seg: History, at: nat, sink: OutputSpec) {
    at < |seg| && seg[at].DidWrite? && seg[at].sink == sink && seg[at].Succeeded()
  }

  /** Notify comes last and only once, after a successful write of every declared output. */
  lemma NotifyComesLast(env: Env, h: History, c: Contract, i: nat)
    requires i < |Process(env, h, c).seg| && Process(env, h, c).seg[i].DidNotify?
    ensures var seg := Process(env, h, c).seg; i == |seg| - 1 && WroteAllBefore(seg, i, c.outputs)
  {
    hide Process, Plan, UpToComputed;
    var seg, plan := Process(env, h, c).seg, Plan(c);
    ProcessOrder(env, h, c);
    NotifyPlannedLast(c);
    assert MoveOf(seg[i]) == plan[i] == ToNotify;
    assert |seg| == |plan| == i + 1;
    forall k | 0 <= k < |c.outputs| ensures WroteAt(seg, i - |c.outputs| + k, c.outputs[k]) {
      var at := i - |c.outputs| + k;
      assert MoveOf(seg[at]) == plan[at] == ToWrite(c.outputs[k]);
    }
  }

  ghost predicate WritesAt(plan: seq<Move>, at: int, sink: OutputSpec) {
    0 <= at < |plan| && plan[at] == ToWrite(sink)
  }

  /** A plan that ends with one write per output and the only notification. */
  ghost predicate EndsNotifying(plan: seq<Move>, outputs: seq<OutputSpec>) {
    && |plan| >= 1 + |outputs|
    && (forall i | 0 <= i < |plan| :: plan[i].ToNotify? ==> i == |plan| - 1)
    && (forall k | 0 <= k < |outputs| :: WritesAt(plan, |plan| - 1 - |outputs| + k, outputs[k]))
  }

  lemma NotifyPlannedLast(c: Contract)
    ensures EndsNotifying(Plan(c), c.outputs)
  {
    hide *;
    PlanEnd(c);
    NoNotifyPlanned(c);
    LastMoves(UpToComputed(c), c.outputs);
  }

  lemma NoNotifyPlanned(c: Contract)
    ensures forall k | 0 <= k < |UpToComputed(c)| :: !UpToComputed(c)[k].ToNotify?
  {
    hide *;
    NoWritePlanned(c);
  }

  lemma PlanEnd(c: Contract)
    ensures Plan(c) == UpToComputed(c) + Writes(c.outputs, 0) + [ToNotify]
  {
    hide UpToComputed, Writes;
  }

  lemma LastMoves(before: seq<Move>, outputs: seq<OutputSpec>)
    requires forall k | 0 <= k < |before| :: !before[k].ToNotify?
    ensures EndsNotifying(before + Writes(outputs, 0) + [ToNotify], outputs)
  {
    hide Writes, WritesAt;
    var writes := Writes(outputs, 0);
    NotifiesLast(before, writes);
    forall k | 0 <= k < |outputs|
      ensures WritesAt(before + writes + [ToNotify], |before| + k, outputs[k])
    {
      WriteInside(before, writes, k, outputs[k]);
    }
  }

  lemma NotifiesLast(before: seq<Move>, writes: seq<Move>)
    requires forall k | 0 <= k < |before| :: !before[k].ToNotify?
    requires forall k | 0 <= k < |writes| :: !writes[k].ToNotify?
    ensures var plan := before + writes + [ToNotify];
      forall i | 0 <= i < |plan| :: plan[i].ToNotify? ==> i == |plan| - 1
  {
    var plan := before + writes + [ToNotify];
    forall i | 0 <= i < |plan| - 1 ensures !plan[i].ToNotify? {
      if i < |before| {
        assert plan[i] == before[i];
      } else {
        assert plan[i] == writes[i - |before|];
      }
    }
  }

  lemma WriteInside(before: seq<Move>, writes: seq<Move>, k: nat, sink: OutputSpec)
    requires k < |writes| && writes[k] == ToWrite(sink)
    ensures WritesAt(before + writes + [ToNotify], |before| + k, sink)
  {
    assert (before + writes)[|before| + k] == writes[k];
  }

  lemma NoNotifyIn(seg: History, plan: seq<Move>)
    requires Conforms(seg, plan) && forall k | 0 <= k < |plan| :: !plan[k].ToNotify?
    ensures forall e | e in seg :: !e.DidNotify?
  {
    forall e | e in seg ensures !e.DidNotify? {
      var k :| 0 <= k < |seg| && seg[k] == e;
      assert MoveOf(seg[k]) == plan[k];
    }
  }

  lemma NothingAuthorizedNotifies(env: Env, h: History, c: Contract)
    ensures forall e | e in AuthorizeContract(env, h, c).seg :: !e.DidNotify?
  {
    hide AuthorizeContract;
    AuthorizeOrder(env, h, c);
    NoNotifyIn(AuthorizeContract(env, h, c).seg, Authorizations(InputUris(c), 0) + Authorizations(OutputUris(c), 0));
  }

  lemma NothingResolvedNotifies(env: Env, h: History, c: Contract)
    ensures forall e | e in ResolveContract(env, h, c).seg :: !e.DidNotify?
  {
    hide ResolveContract, Resolutions;
    ResolveOrder(env, h, c);
    NoNotifyIn(ResolveContract(env, h, c).seg, Resolutions(InputNeeds(c), 0) + Resolutions(OutputNeeds(c), 0));
  }

  /** A notification a run makes decides how it ends. */
  lemma NotificationDecides(env: Env, h: History, c: Contract)
    ensures var s := Process(env, h, c);
      && (s.out.Ok? ==> s.seg != [] && s.seg[|s.seg| - 1].DidNotify? && s.seg[|s.seg| - 1].Succeeded())
      && (forall e | e in s.seg && e.DidNotify? :: e.Succeeded() ==> s.out.Ok?)
  {
    hide AuthorizeContract, ResolveContract, Loading, ComputeContract, Saving, SuccessPayload;
    var auth := AuthorizeContract(env, h, c);
    var s1 := auth.seg;
    NothingAuthorizedNotifies(env, h, c);
    if auth.out.Ok? {
      var creds := ResolveContract(env, h + s1, c);
      var s2 := s1 + creds.seg;
      NothingResolvedNotifies(env, h + s1, c);
      if creds.out.Ok? {
        var loaded := Loading(env, h + s2, c.inputs, creds.out.value.inputs, 0, []);
        var s3 := s2 + loaded.seg;
        LoadingOrder(env, h + s2, c.inputs, creds.out.value.inputs, 0, []);
        NoNotifyIn(loaded.seg, Reads(c.inputs, 0));
        if loaded.out.Ok? {
          var computed := ComputeContract(env, h + s3, c, loaded.out.value);
          ComputeOrder(env, h + s3, c, loaded.out.value);
          NoNotifyIn(computed.seg, [ToStamp, ToCompute]);
          if computed.out.Ok? {
            var byRole, s4 := computed.out.value.result.byRole, s3 + computed.seg;
            SavingPayloads(env, h + s4, c.outputs, creds.out.value.outputs, byRole, 0, []);
          }
        }
      }
    }
  }

  /** The webhook acknowledges a notification of exactly the runs that end well: no error is ever
      told to it. */
  lemma AcknowledgedExactlyOnSuccess(env: Env, h: History, c: Contract)
    ensures Process(env, h, c).out.Ok? <==> exists e :: e in Process(env, h, c).seg && e.DidNotify? && e.Succeeded()
  {
    hide Process;
    NotificationDecides(env, h, c);
    var seg := Process(env, h, c).seg;
    if Process(env, h, c).out.Ok? {
      assert seg[|seg| - 1] in seg;
    }
  }
}
