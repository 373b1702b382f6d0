/** Why the role-keyed lookups of a run cannot miss, and why its receipts line up with the contract. */
module Totality {
  import opened Outcomes
  import opened Duplicates
  import opened Dicts
  import opened Json
  import opened Contracts
  import opened Readouts
  import opened Ports
  import opened Pipeline
  import opened Redelivery
  import EffectOrder
  import Security
  import Storage

  // ---------------------------------------------------------------- no dangling lookup

  predicate Dangling<T>(out: Outcome<T>) { out.Escaped? && out.cause.MissingKey? }

  lemma {:induction false} ResolvesEveryRole(env: Env, h: History, needs: seq<Need>, i: nat, acc: Dict<Credentials>)
    requires i <= |needs| && forall k | 0 <= k < i :: needs[k].role in Keys(acc)
    ensures var out := Resolving(env, h, needs, i, acc).out;
      && !Dangling(out)
      && (out.Ok? ==> forall k | 0 <= k < |needs| :: needs[k].role in Keys(out.value))
    decreases |needs| - i
  {
    if i < |needs| {
      match needs[i].ref {
        case None =>
          PutSize(acc, needs[i].role, NO_CREDENTIALS);
          ResolvesEveryRole(env, h, needs, i + 1, Put(acc, needs[i].role, NO_CREDENTIALS));
        case Some(ref) =>
          var reply := env.ports.resolve(h, ref);
          if reply.Done? {
            PutSize(acc, needs[i].role, reply.value);
            ResolvesEveryRole(env, h + [DidResolve(ref, reply)], needs, i + 1, Put(acc, needs[i].role, reply.value));
          }
      }
    }
  }

  lemma {:induction false} LoadsWithoutMiss(env: Env, h: History, specs: seq<InputSpec>, creds: Dict<Credentials>,
                                            i: nat, acc: Dict<Bytes>)
    requires i <= |specs| && forall k | 0 <= k < |specs| :: specs[k].target.role in Keys(creds)
    ensures !Dangling(Loading(env, h, specs, creds, i, acc).out)
    decreases |specs| - i
  {
    if i < |specs| {
      GetSome(creds, specs[i].target.role);
      var cred := Lookup(creds, specs[i].target.role).value;
      var reply := env.ports.read(h, specs[i], cred);
      if reply.Done? {
        LoadsWithoutMiss(env, h + [DidRead(specs[i], cred, reply)], specs, creds, i + 1,
                         Put(acc, specs[i].target.role, reply.value));
      }
    }
  }

  lemma {:induction false} SavesWithoutMiss(env: Env, h: History, specs: seq<OutputSpec>, creds: Dict<Credentials>,
                                            byRole: map<string, Bytes>, i: nat, acc: Dict<WriteReceipt>)
    requires i <= |specs| && forall k | 0 <= k < |specs| ::
               specs[k].target.role in Keys(creds) && specs[k].target.role in byRole
    ensures !Dangling(Saving(env, h, specs, creds, byRole, i, acc).out)
    decreases |specs| - i
  {
    if i < |specs| {
      var role := specs[i].target.role;
      GetSome(creds, role);
      var written := env.ports.write(h, specs[i], byRole[role], Lookup(creds, role).value);
      if written.reply.Done? {
        var event := DidWrite(specs[i], byRole[role], Lookup(creds, role).value, written);
        SavesWithoutMiss(env, h + [event], specs, creds, byRole, i + 1, Put(acc, role, written.reply.value));
      }
    }
  }

  /** A backend that, when it answers, answers for every role it declares. */
  ghost predicate HonoursRoles(env: Env) {
    forall h, i, q, x :: env.ports.compute(h, i, q, x).Done? ==>
      forall role | role in env.outputRoles :: role in env.ports.compute(h, i, q, x).value.byRole
  }

  lemma ComputedHasRoles(env: Env, h: History, c: Contract, inputs: Dict<Bytes>)
    requires HonoursRoles(env) && CheckRoles(env, c).Ok?
    ensures var out := ComputeContract(env, h, c, inputs).out;
      && !Dangling(out)
      && (out.Ok? ==> forall k | 0 <= k < |c.outputs| :: c.outputs[k].target.role in out.value.result.byRole)
  {
    var out := ComputeContract(env, h, c, inputs).out;
    if out.Ok? {
      forall k | 0 <= k < |c.outputs| ensures c.outputs[k].target.role in out.value.result.byRole {
        assert OutputRoles(c)[k] in RoleSet(OutputRoles(c));
      }
    }
    hide ContextOf;
  }

  lemma AuthorizeNeverDangles(env: Env, h: History, c: Contract)
    ensures !Dangling(AuthorizeContract(env, h, c).out)
  {
    hide Authorizing;
    AuthorizingNeverDangles(env, h, InputUris(c), c.identity, 0);
    AuthorizingNeverDangles(env, h + Authorizing(env, h, InputUris(c), c.identity, 0).seg, OutputUris(c), c.identity,
                            0);
  }

  lemma {:induction false} AuthorizingNeverDangles(env: Env, h: History, uris: seq<string>, identity: Security.Identity,
                                                   i: nat)
    requires i <= |uris|
    ensures !Dangling(Authorizing(env, h, uris, identity, i).out)
    decreases |uris| - i
  {
    if i < |uris| {
      var event := DidAuthorize(uris[i], identity, env.ports.authorize(h, uris[i], identity));
      AuthorizingNeverDangles(env, h + [event], uris, identity, i + 1);
    }
  }

  /** No dangling lookup: for a contract that passed the role check, and a backend that returns
      bytes for each role it declares, no credential or output lookup of the run can miss. */
  lemma NoDanglingLookup(env: Env, h: History, c: Contract)
    requires CheckRoles(env, c).Ok? && HonoursRoles(env)
    ensures !Dangling(Process(env, h, c).out)
  {
    hide AuthorizeContract, Resolving, Loading, ComputeContract, Saving, SuccessPayload, CheckRoles, HonoursRoles, Keys;
    AuthorizeNeverDangles(env, h, c);
    var s1 := AuthorizeContract(env, h, c).seg;
    ResolvesEveryRole(env, h + s1, InputNeeds(c), 0, []);
    ResolvesEveryRole(env, h + s1 + Resolving(env, h + s1, InputNeeds(c), 0, []).seg, OutputNeeds(c), 0, []);
    var creds := ResolveContract(env, h + s1, c);
    var s2 := s1 + creds.seg;
    if creds.out.Ok? {
      assert forall k | 0 <= k < |c.inputs| :: InputNeeds(c)[k].role == c.inputs[k].target.role;
      LoadsWithoutMiss(env, h + s2, c.inputs, creds.out.value.inputs, 0, []);
      var loaded := Loading(env, h + s2, c.inputs, creds.out.value.inputs, 0, []);
      var s3 := s2 + loaded.seg;
      if loaded.out.Ok? {
        ComputedHasRoles(env, h + s3, c, loaded.out.value);
        var computed := ComputeContract(env, h + s3, c, loaded.out.value);
        if computed.out.Ok? {
          assert forall k | 0 <= k < |c.outputs| :: OutputNeeds(c)[k].role == c.outputs[k].target.role;
          SavesWithoutMiss(env, h + (s3 + computed.seg), c.outputs, creds.out.value.outputs,
                           computed.out.value.result.byRole, 0, []);
        }
      }
    }
  }

  /** Without that promise the miss is not a typed error, and it comes after writes: when storage
      refuses nothing, saving ends in an uncaught lookup failure at the first role the result
      lacks, with every output before it already written. */
  lemma {:induction false} MissingOutputEscapes(env: Env, h: History, specs: seq<OutputSpec>, creds: Dict<Credentials>,
                                                byRole: map<string, Bytes>, i: nat, k: nat, acc: Dict<WriteReceipt>)
    requires i <= k < |specs| && specs[k].target.role !in byRole
    requires forall j | i <= j < k :: specs[j].target.role in byRole && specs[j].target.role in Keys(creds)
    requires forall g, s, b, x :: env.ports.write(g, s, b, x).reply.Done?
    ensures var s := Saving(env, h, specs, creds, byRole, i, acc);
      s.out == Escaped(MissingKey(specs[k].target.role)) && |s.seg| == k - i
      && forall j | 0 <= j < k - i :: s.seg[j].DidWrite? && s.seg[j].sink == specs[i + j] && s.seg[j].Succeeded()
    decreases k - i
  {
    hide Put, Keys, Get;
    if i < k {
      var role := specs[i].target.role;
      GetSome(creds, role);
      var written := env.ports.write(h, specs[i], byRole[role], Lookup(creds, role).value);
      var event := DidWrite(specs[i], byRole[role], Lookup(creds, role).value, written);
      MissingOutputEscapes(env, h + [event], specs, creds, byRole, i + 1, k, Put(acc, role, written.reply.value));
    }
  }

  // ---------------------------------------------------------------- conservation

  /** One receipt per output, in contract order: what storage answered to its write. */
  ghost predicate ReceiptsOf(receipts: Dict<WriteReceipt>, specs: seq<OutputSpec>, writes: History) {
    && |receipts| == |specs| == |writes|
    && forall k | 0 <= k < |specs| ::
         && writes[k].DidWrite? && writes[k].sink == specs[k] && writes[k].written.reply.Done?
         && receipts[k] == (specs[k].target.role, writes[k].written.reply.value)
  }

  function Roles(specs: seq<OutputSpec>): (r: seq<string>)
    ensures |r| == |specs| && forall i | 0 <= i < |r| :: r[i] == specs[i].target.role
  {
    seq(|specs|, i requires 0 <= i < |specs| => specs[i].target.role)
  }

  lemma {:induction false} SavingReceipts(env: Env, h: History, specs: seq<OutputSpec>, creds: Dict<Credentials>,
                                          byRole: map<string, Bytes>, i: nat, done: History, acc: Dict<WriteReceipt>)
    requires i <= |specs| && Distinct(Roles(specs)) && ReceiptsOf(acc, specs[..i], done)
    requires Saving(env, h, specs, creds, byRole, i, acc).out.Ok?
    ensures var s := Saving(env, h, specs, creds, byRole, i, acc); ReceiptsOf(s.out.value, specs, done + s.seg)
    decreases |specs| - i
  {
    if i == |specs| {
      assert specs[..i] == specs && done + [] == done;
    } else {
      var role := specs[i].target.role;
      var cred := Lookup(creds, role).value;
      var written := env.ports.write(h, specs[i], byRole[role], cred);
      var event := DidWrite(specs[i], byRole[role], cred, written);
      NewRole(acc, specs, i, done);
      PutNew(acc, role, written.reply.value);
      var more := acc + [(role, written.reply.value)];
      ReceiptsMore(acc, specs, i, done, event);
      SavingReceipts(env, h + [event], specs, creds, byRole, i + 1, done + [event], more);
      var rest := Saving(env, h + [event], specs, creds, byRole, i + 1, more).seg;
      assert (done + [event]) + rest == done + ([event] + rest);
    }
  }

  lemma ReceiptsMore(acc: Dict<WriteReceipt>, specs: seq<OutputSpec>, i: nat, done: History, event: Event)
    requires i < |specs| && ReceiptsOf(acc, specs[..i], done)
    requires event.DidWrite? && event.sink == specs[i] && event.written.reply.Done?
    ensures ReceiptsOf(acc + [(specs[i].target.role, event.written.reply.value)], specs[..i + 1], done + [event])
  {
    assert forall k | 0 <= k < i :: specs[..i + 1][k] == specs[..i][k];
  }

  lemma NewRole(acc: Dict<WriteReceipt>, specs: seq<OutputSpec>, i: nat, done: History)
    requires i < |specs| && Distinct(Roles(specs)) && ReceiptsOf(acc, specs[..i], done)
    ensures specs[i].target.role !in Keys(acc)
  {
    forall k | 0 <= k < |acc| ensures Keys(acc)[k] != specs[i].target.role {
      assert Keys(acc)[k] == specs[..i][k].target.role == Roles(specs)[k] != Roles(specs)[i];
    }
  }

  /** The calls of a complete run, from the end: the writes, then the one notification. */
  function WritesIn(seg: History, n: nat): History
    requires n < |seg|
  {
    seg[|seg| - 1 - n..|seg| - 1]
  }

  /** How the calls of a successful run divide: `before` up to the reads, then stamping and
      computing, then the writes, then the notification. */
  ghost predicate Staged(env: Env, h: History, c: Contract, before: History, inputs: Dict<Bytes>,
                         creds: Dict<Credentials>) {
    var run, computed := Process(env, h, c), ComputeContract(env, h + before, c, inputs);
    && run.out.Ok? && computed.out.Ok? && (forall e | e in before :: !e.DidWrite?)
    && var result, started := computed.out.value.result, before + computed.seg;
       var saved := Saving(env, h + started, c.outputs, creds, result.byRole, 0, []);
       && saved.out.Ok? && run.out.value.receipts == saved.out.value && run.out.value.metadata == result.metadata
       && run.seg == started + saved.seg +
            [DidNotify(c.callback, SuccessPayload(c.envelope.requestId, saved.out.value, result.metadata),
                       Done(run.out.value.ack))]
  }

  lemma Stages(env: Env, h: History, c: Contract)
    returns (before: History, inputs: Dict<Bytes>, creds: Dict<Credentials>)
    requires Process(env, h, c).out.Ok?
    ensures Staged(env, h, c, before, inputs, creds)
  {
    hide AuthorizeContract, ResolveContract, Loading, ComputeContract, Saving, SuccessPayload;
    var s1 := AuthorizeContract(env, h, c).seg;
    var bundle := ResolveContract(env, h + s1, c);
    var s2 := s1 + bundle.seg;
    var loaded := Loading(env, h + s2, c.inputs, bundle.out.value.inputs, 0, []);
    before, inputs, creds := s2 + loaded.seg, loaded.out.value, bundle.out.value.outputs;
    BeforeReading(env, h, c);
    EffectOrder.LoadingOrder(env, h + s2, c.inputs, bundle.out.value.inputs, 0, []);
    EffectOrder.NoWriteIn(loaded.seg, EffectOrder.Reads(c.inputs, 0));
  }

  /** The report of a run agrees with its calls: a receipt per write, and all of them in the notice. */
  ghost predicate Reported(seg: History, c: Contract, report: Report) {
    && |c.outputs| < |seg|
    && ReceiptsOf(report.receipts, c.outputs, WritesIn(seg, |c.outputs|))
    && var last := seg[|seg| - 1];
       && last.DidNotify? && last.callback == c.callback && last.ack == Done(report.ack)
       && last.notice == WebhookPayload(c.envelope.requestId, "ok", report.receipts, report.metadata)
  }

  /** Conservation: on success the receipts, and the outputs the webhook is told of, are one entry
      per declared output in contract order, each what storage answered to that output's write. */
  lemma ReceiptsLineUp(env: Env, h: History, c: Contract)
    requires Process(env, h, c).out.Ok? && Distinct(OutputRoles(c))
    ensures Reported(Process(env, h, c).seg, c, Process(env, h, c).out.value)
  {
    hide Process, ComputeContract, Saving, ReceiptsOf, Distinct;
    var before, inputs, creds := Stages(env, h, c);
    var started := before + ComputeContract(env, h + before, c, inputs).seg;
    var byRole := ComputeContract(env, h + before, c, inputs).out.value.result.byRole;
    var saved := Saving(env, h + started, c.outputs, creds, byRole, 0, []);
    assert Roles(c.outputs) == OutputRoles(c);
    NoReceipts(c.outputs);
    SavingReceipts(env, h + started, c.outputs, creds, byRole, 0, [], []);
    assert [] + saved.seg == saved.seg;
    ReceiptsLength(saved.out.value, c.outputs, saved.seg);
    var seg := Process(env, h, c).seg;
    assert seg[..|seg| - 1] == started + saved.seg;
    assert WritesIn(seg, |c.outputs|) == saved.seg;
  }

  lemma NoReceipts(specs: seq<OutputSpec>)
    ensures ReceiptsOf([], specs[..0], [])
  {
  }

  lemma ReceiptsLength(receipts: Dict<WriteReceipt>, specs: seq<OutputSpec>, writes: History)
    requires ReceiptsOf(receipts, specs, writes)
    ensures |writes| == |specs|
  {
  }

  // ---------------------------------------------------------------- with the in-memory store

  /** Bytes are stored as they are. */
  const RAW := Medium((spec, payload) => payload, (spec, bytes) => Some(bytes))

  /** The storage port is an in-memory store that began as `s0`. */
  ghost predicate InMemory(p: Ports, supported: set<string>, s0: Store) {
    && (forall h, spec, creds ::
          p.read(h, spec, creds) == Storage.MemRead(Replay(RAW, s0, h), supported, spec.target.uri))
    && (forall h, spec, b, creds :: p.write(h, spec, b, creds) == MemWriteReply(supported, spec, b))
  }

  function MemWriteReply(supported: set<string>, spec: OutputSpec, b: Bytes): WriteReply {
    var r := Storage.MemWrite(supported, spec.target.uri, b);
    WriteReply(r, r.Done?)
  }

  lemma InMemoryIsFaithful(p: Ports, supported: set<string>, s0: Store)
    requires InMemory(p, supported, s0)
    ensures Faithful(p, RAW, s0)
  {
  }

  /** Every write event of the run is the in-memory store's answer. */
  lemma {:induction false} SavedInMemory(env: Env, h: History, specs: seq<OutputSpec>, creds: Dict<Credentials>,
                                         byRole: map<string, Bytes>, i: nat, acc: Dict<WriteReceipt>,
                                         supported: set<string>, s0: Store)
    requires InMemory(env.ports, supported, s0) && i <= |specs|
    ensures forall e | e in Saving(env, h, specs, creds, byRole, i, acc).seg ::
              e.DidWrite? && e.written == MemWriteReply(supported, e.sink, e.payload)
    decreases |specs| - i
  {
    if i < |specs| {
      var role := specs[i].target.role;
      if role in byRole && Lookup(creds, role).Ok? {
        var written := env.ports.write(h, specs[i], byRole[role], Lookup(creds, role).value);
        assert written == MemWriteReply(supported, specs[i], byRole[role]);
        if written.reply.Done? {
          var event := DidWrite(specs[i], byRole[role], Lookup(creds, role).value, written);
          SavedInMemory(env, h + [event], specs, creds, byRole, i + 1, Put(acc, role, written.reply.value), supported,
                        s0);
        }
      }
    }
  }

  /** The receipt of an output: its role, its destination, and the length of what was produced. */
  ghost predicate ReceiptFor(receipt: (string, WriteReceipt), spec: OutputSpec, byRole: map<string, Bytes>) {
    var role := spec.target.role;
    role in byRole && receipt == (role, WriteReceipt(spec.target.uri, |byRole[role]|, "in-memory"))
  }

  lemma InMemoryReceipts(receipts: Dict<WriteReceipt>, specs: seq<OutputSpec>, writes: History,
                         byRole: map<string, Bytes>, supported: set<string>)
    requires ReceiptsOf(receipts, specs, writes)
    requires forall e | e in writes :: e.DidWrite? && e.written == MemWriteReply(supported, e.sink, e.payload)
    requires forall e | e in writes :: EffectOrder.WritesOf(e, byRole)
    ensures forall k | 0 <= k < |specs| :: ReceiptFor(receipts[k], specs[k], byRole)
  {
    forall k | 0 <= k < |specs| ensures ReceiptFor(receipts[k], specs[k], byRole) {
      assert writes[k] in writes;
    }
  }

  /** A successful compute call among the calls of a run. */
  ghost predicate ComputedIn(seg: History, context: ComputeContext, result: ComputeResult) {
    exists e :: e in seg && e.DidCompute? && e.context == context && e.result == Done(result)
  }

  /** With the in-memory store, success conserves: the backend's context, its result, the receipts
      and the final store all speak of the same destinations. */
  lemma ConservedInMemory(env: Env, h: History, c: Contract, supported: set<string>, s0: Store)
    returns (context: ComputeContext, result: ComputeResult)
    requires Process(env, h, c).out.Ok? && Distinct(OutputRoles(c)) && InMemory(env.ports, supported, s0)
    ensures ComputedIn(Process(env, h, c).seg, context, result)
    ensures var receipts, byRole := Process(env, h, c).out.value.receipts, result.byRole;
      && |receipts| == |c.outputs|
      && (forall k | 0 <= k < |c.outputs| :: ReceiptFor(receipts[k], c.outputs[k], byRole))
      && (forall k | 0 <= k < |c.outputs| :: context.ArtifactUri(c.outputs[k].target.role) == Ok(receipts[k].1.uri))
    ensures Replay(RAW, s0, h + Process(env, h, c).seg) ==
            Overwrite(RAW, Replay(RAW, s0, h), c.outputs, result.byRole, 0)
  {
    hide Process, ComputeContract, Saving, Distinct, InMemory, Replay, Overwrite, RAW, ReceiptsOf, EffectOrder.WritesOf;
    var before, inputs, creds := Stages(env, h, c);
    var computed := ComputeContract(env, h + before, c, inputs);
    context, result := computed.out.value.context, computed.out.value.result;
    var started := before + computed.seg;
    var saved := Saving(env, h + started, c.outputs, creds, result.byRole, 0, []);
    StampedContext(env, h + before, c, inputs);
    assert computed.seg[1] in Process(env, h, c).seg;
    SavedReceipts(env, h + started, c, creds, result.byRole, supported, s0);
    SavedStore(env, h, c, before, inputs, creds, supported, s0);
  }

  lemma SavedReceipts(env: Env, h: History, c: Contract, creds: Dict<Credentials>, byRole: map<string, Bytes>,
                      supported: set<string>, s0: Store)
    requires Distinct(OutputRoles(c)) && InMemory(env.ports, supported, s0)
    requires Saving(env, h, c.outputs, creds, byRole, 0, []).out.Ok?
    ensures var receipts := Saving(env, h, c.outputs, creds, byRole, 0, []).out.value;
      |receipts| == |c.outputs| && forall k | 0 <= k < |c.outputs| :: ReceiptFor(receipts[k], c.outputs[k], byRole)
  {
    hide Saving, ReceiptsOf, EffectOrder.WritesOf, Distinct, InMemory;
    var saved := Saving(env, h, c.outputs, creds, byRole, 0, []);
    assert Roles(c.outputs) == OutputRoles(c);
    NoReceipts(c.outputs);
    SavingReceipts(env, h, c.outputs, creds, byRole, 0, [], []);
    assert [] + saved.seg == saved.seg;
    SavedInMemory(env, h, c.outputs, creds, byRole, 0, [], supported, s0);
    EffectOrder.SavingPayloads(env, h, c.outputs, creds, byRole, 0, []);
    InMemoryReceipts(saved.out.value, c.outputs, saved.seg, byRole, supported);
    ReceiptsCount(saved.out.value, c.outputs, saved.seg);
  }

  lemma SavedStore(env: Env, h: History, c: Contract, before: History, inputs: Dict<Bytes>, creds: Dict<Credentials>,
                   supported: set<string>, s0: Store)
    requires Staged(env, h, c, before, inputs, creds) && InMemory(env.ports, supported, s0)
    ensures Replay(RAW, s0, h + Process(env, h, c).seg) ==
            Overwrite(RAW, Replay(RAW, s0, h), c.outputs,
                      ComputeContract(env, h + before, c, inputs).out.value.result.byRole, 0)
  {
    hide Process, ComputeContract, Saving, InMemory, Replay, Overwrite, RAW, Faithful;
    InMemoryIsFaithful(env.ports, supported, s0);
    var computed := ComputeContract(env, h + before, c, inputs);
    EffectOrder.ComputeOrder(env, h + before, c, inputs);
    EffectOrder.NoWriteIn(computed.seg, [EffectOrder.ToStamp, EffectOrder.ToCompute]);
    var started, byRole := before + computed.seg, computed.out.value.result.byRole;
    ReplayQuiet(RAW, s0, h, started);
    SavesAll(env, h + started, RAW, s0, c.outputs, creds, byRole, 0, []);
    var saved := Saving(env, h + started, c.outputs, creds, byRole, 0, []).seg;
    assert (h + started) + saved == h + (started + saved);
    NotifyQuiet(RAW, s0, h, started + saved, Process(env, h, c).seg);
  }

  lemma ReceiptsCount(receipts: Dict<WriteReceipt>, specs: seq<OutputSpec>, writes: History)
    requires ReceiptsOf(receipts, specs, writes)
    ensures |receipts| == |specs|
  {
  }

  /** The context given to the backend knows the destination of every output. */
  lemma StampedContext(env: Env, h: History, c: Contract, inputs: Dict<Bytes>)
    requires ComputeContract(env, h, c, inputs).out.Ok? && Distinct(OutputRoles(c))
    ensures var s := ComputeContract(env, h, c, inputs);
      && |s.seg| == 2 && s.seg[1].DidCompute? && s.seg[1].context == s.out.value.context
         && s.seg[1].result == Done(s.out.value.result)
      && forall k | 0 <= k < |c.outputs| ::
           s.out.value.context.ArtifactUri(c.outputs[k].target.role) == Ok(c.outputs[k].target.uri)
  {
    hide Gate, ContextOf;
    forall k | 0 <= k < |c.outputs|
      ensures ComputeContract(env, h, c, inputs).out.value.context.ArtifactUri(c.outputs[k].target.role) ==
              Ok(c.outputs[k].target.uri)
    {
      ContextUris(c, env.ports.now(h).value, k);
    }
  }

  // ---------------------------------------------------------------- the readout

  /** A run that writes anything had a readout, valid and about this very contract. */
  lemma WritesHaveTheirReadout(env: Env, h: History, c: Contract, i: nat)
    requires i < |Process(env, h, c).seg| && Process(env, h, c).seg[i].DidWrite?
    ensures exists e, r :: IsReadoutOf(env, c, Process(env, h, c).seg[..i], e, r)
  {
    hide Process, Gate, ContextOf;
    EffectOrder.WritesAreGated(env, h, c, i);
    var seg := Process(env, h, c).seg;
    var j :| 0 <= j < i && EffectOrder.Gated(env, c, seg[j]);
    var time :| seg[j].context == ContextOf(c, time);
    GateSound(seg[j].result.value.byRole, c, time, env.reader);
    assert seg[j] == seg[..i][j] && seg[j] in seg[..i];
    var r := Gate(seg[j].result.value.byRole, seg[j].context, env.reader).value;
    assert IsReadoutOf(env, c, seg[..i], seg[j], r);
  }

  ghost predicate IsReadoutOf(env: Env, c: Contract, before: History, e: Event, r: Readout) {
    e in before && e.DidCompute? && e.result.Done? && ExplainedBy(e.result.value.byRole, c, env.reader, r)
  }

  lemma {:induction false} DistinctCount(roles: seq<string>)
    requires Distinct(roles)
    ensures |RoleSet(roles)| == |roles|
  {
    if roles != [] {
      var init, last := roles[..|roles| - 1], roles[|roles| - 1];
      DistinctCount(init);
      assert roles == init + [last];
      assert last !in init;
      assert RoleSet(roles) == RoleSet(init) + {last};
    }
  }

  /** The artefacts a service has to describe fit the readout, except for one shape of contract:
      protocol 1.0 with all eleven outputs used by service artefacts. */
  lemma ArtifactsFitExactly(env: Env, c: Contract)
    requires CheckRoles(env, c).Ok? && Distinct(OutputRoles(c)) && |c.outputs| <= MAX_OUTPUTS
    ensures |env.outputRoles - {READOUT_ROLE}| <= MAX_ARTIFACTS <==>
            !(c.envelope.version != READOUT_PROTOCOL_VERSION && |c.outputs| == MAX_OUTPUTS
              && READOUT_ROLE !in OutputRoles(c))
  {
    var roles := RoleSet(OutputRoles(c));
    DistinctCount(OutputRoles(c));
    hide RoleSet;
    assert roles == ExpectedOutputRoles(env, c);
    assert env.outputRoles - {READOUT_ROLE} == roles - {READOUT_ROLE};
    assert READOUT_ROLE in roles <==> READOUT_ROLE in OutputRoles(c) by { RoleSetHas(OutputRoles(c)); }
    if READOUT_ROLE !in roles {
      assert roles - {READOUT_ROLE} == roles;
    }
  }

  lemma RoleSetHas(roles: seq<string>)
    ensures forall r :: r in RoleSet(roles) <==> r in roles
  {
  }
}
