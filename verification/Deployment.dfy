/** Splitting the pipeline between a receiver and a worker changes nothing but who runs it. */
module Deployment {
  import opened Outcomes
  import opened Dicts
  import opened Json
  import opened Security
  import opened Contracts
  import opened Readouts
  import opened Ports
  import opened Pipeline
  import Registry

  /** The calls that act on the world or read it: all but asking the authorizer and dispatching. */
  function Effects(h: History): History {
    if h == [] then []
    else
      var last := h[|h| - 1];
      Effects(h[..|h| - 1]) + if last.DidAuthorize? || last.DidDispatch? then [] else [last]
  }

  lemma {:induction false} EffectsConcat(h: History, g: History)
    ensures Effects(h + g) == Effects(h) + Effects(g)
  {
    if g == [] {
      assert h + g == h;
    } else {
      var init := g[..|g| - 1];
      EffectsConcat(h, init);
      assert (h + g)[..|h + g| - 1] == h + init;
    }
  }

  ghost predicate SameReplies(p: Ports, h1: History, h2: History) {
    && (forall u, i :: p.authorize(h1, u, i) == p.authorize(h2, u, i))
    && (forall r :: p.resolve(h1, r) == p.resolve(h2, r))
    && (forall s, c :: p.read(h1, s, c) == p.read(h2, s, c))
    && p.now(h1) == p.now(h2)
    && (forall i, q, x :: p.compute(h1, i, q, x) == p.compute(h2, i, q, x))
    && (forall s, b, c :: p.write(h1, s, b, c) == p.write(h2, s, b, c))
    && (forall c, n :: p.notify(h1, c, n) == p.notify(h2, c, n))
  }

  /** The ports cannot tell whether a receiver ran before: they answer by the effects so far. */
  ghost predicate Blind(p: Ports) {
    forall h1, h2 :: Effects(h1) == Effects(h2) ==> SameReplies(p, h1, h2)
  }

  /** Two deployments of one service: the same contract model, roles, allowlist and ports, but for
      the message decoder, the dispatcher and the mode. */
  ghost predicate Alike(a: Env, b: Env) {
    && a.leaves == b.leaves && a.params == b.params && a.reader == b.reader
    && a.required == b.required && a.optional == b.optional && a.outputRoles == b.outputRoles
    && a.allowed == b.allowed
    && a.ports.authorize == b.ports.authorize && a.ports.resolve == b.ports.resolve
    && a.ports.read == b.ports.read && a.ports.now == b.ports.now && a.ports.compute == b.ports.compute
    && a.ports.write == b.ports.write && a.ports.notify == b.ports.notify
  }

  /** What the step lemmas assume of the two sides. */
  ghost predicate Indistinguishable(a: Env, h1: History, b: Env, h2: History) {
    Alike(a, b) && Blind(a.ports) && Effects(h1) == Effects(h2)
  }

  lemma Later(a: Env, h1: History, b: Env, h2: History, seg: History)
    requires Indistinguishable(a, h1, b, h2)
    ensures Indistinguishable(a, h1 + seg, b, h2 + seg)
  {
    EffectsConcat(h1, seg);
    EffectsConcat(h2, seg);
  }

  lemma {:induction false} SameAuthorizing(a: Env, h1: History, b: Env, h2: History, uris: seq<string>,
                                           identity: Identity, i: nat)
    requires Indistinguishable(a, h1, b, h2) && i <= |uris|
    ensures Authorizing(a, h1, uris, identity, i) == Authorizing(b, h2, uris, identity, i)
    decreases |uris| - i
  {
    hide CheckScheme, Effects;
    assert SameReplies(a.ports, h1, h2);
    if i < |uris| {
      var event := DidAuthorize(uris[i], identity, a.ports.authorize(h1, uris[i], identity));
      Later(a, h1, b, h2, [event]);
      SameAuthorizing(a, h1 + [event], b, h2 + [event], uris, identity, i + 1);
    }
  }

  lemma {:induction false} SameResolving(a: Env, h1: History, b: Env, h2: History, needs: seq<Need>, i: nat,
                                         acc: Dict<Credentials>)
    requires Indistinguishable(a, h1, b, h2) && i <= |needs|
    ensures Resolving(a, h1, needs, i, acc) == Resolving(b, h2, needs, i, acc)
    decreases |needs| - i
  {
    hide Effects;
    assert SameReplies(a.ports, h1, h2);
    if i < |needs| {
      match needs[i].ref {
        case None => SameResolving(a, h1, b, h2, needs, i + 1, Put(acc, needs[i].role, NO_CREDENTIALS));
        case Some(ref) =>
          var reply := a.ports.resolve(h1, ref);
          var event := DidResolve(ref, reply);
          Later(a, h1, b, h2, [event]);
          if reply.Done? {
            SameResolving(a, h1 + [event], b, h2 + [event], needs, i + 1, Put(acc, needs[i].role, reply.value));
          }
      }
    }
  }

  lemma {:induction false} SameLoading(a: Env, h1: History, b: Env, h2: History, specs: seq<InputSpec>,
                                       creds: Dict<Credentials>, i: nat, acc: Dict<Bytes>)
    requires Indistinguishable(a, h1, b, h2) && i <= |specs|
    ensures Loading(a, h1, specs, creds, i, acc) == Loading(b, h2, specs, creds, i, acc)
    decreases |specs| - i
  {
    hide Effects;
    assert SameReplies(a.ports, h1, h2);
    if i < |specs| && Lookup(creds, specs[i].target.role).Ok? {
      var role, cred := specs[i].target.role, Lookup(creds, specs[i].target.role).value;
      var reply := a.ports.read(h1, specs[i], cred);
      var event := DidRead(specs[i], cred, reply);
      Later(a, h1, b, h2, [event]);
      if reply.Done? {
        SameLoading(a, h1 + [event], b, h2 + [event], specs, creds, i + 1, Put(acc, role, reply.value));
      }
    }
  }

  lemma {:induction false} SameSaving(a: Env, h1: History, b: Env, h2: History, specs: seq<OutputSpec>,
                                      creds: Dict<Credentials>,
                                      byRole: map<string, Bytes>, i: nat, acc: Dict<WriteReceipt>)
    requires Indistinguishable(a, h1, b, h2) && i <= |specs|
    ensures Saving(a, h1, specs, creds, byRole, i, acc) == Saving(b, h2, specs, creds, byRole, i, acc)
    decreases |specs| - i
  {
    hide Effects;
    assert SameReplies(a.ports, h1, h2);
    if i < |specs| && specs[i].target.role in byRole && Lookup(creds, specs[i].target.role).Ok? {
      var role, cred := specs[i].target.role, Lookup(creds, specs[i].target.role).value;
      var written := a.ports.write(h1, specs[i], byRole[role], cred);
      var event := DidWrite(specs[i], byRole[role], cred, written);
      Later(a, h1, b, h2, [event]);
      if written.reply.Done? {
        SameSaving(a, h1 + [event], b, h2 + [event], specs, creds, byRole, i + 1, Put(acc, role, written.reply.value));
      }
    }
  }

  lemma SameAuthorizeContract(a: Env, h1: History, b: Env, h2: History, c: Contract)
    requires Indistinguishable(a, h1, b, h2)
    ensures AuthorizeContract(a, h1, c) == AuthorizeContract(b, h2, c)
  {
    hide Authorizing, Indistinguishable;
    SameAuthorizing(a, h1, b, h2, InputUris(c), c.identity, 0);
    var seg := Authorizing(a, h1, InputUris(c), c.identity, 0).seg;
    Later(a, h1, b, h2, seg);
    SameAuthorizing(a, h1 + seg, b, h2 + seg, OutputUris(c), c.identity, 0);
  }

  lemma SameResolveContract(a: Env, h1: History, b: Env, h2: History, c: Contract)
    requires Indistinguishable(a, h1, b, h2)
    ensures ResolveContract(a, h1, c) == ResolveContract(b, h2, c)
  {
    hide Resolving, Indistinguishable;
    SameResolving(a, h1, b, h2, InputNeeds(c), 0, []);
    var seg := Resolving(a, h1, InputNeeds(c), 0, []).seg;
    Later(a, h1, b, h2, seg);
    SameResolving(a, h1 + seg, b, h2 + seg, OutputNeeds(c), 0, []);
  }

  lemma SameComputeContract(a: Env, h1: History, b: Env, h2: History, c: Contract, inputs: Dict<Bytes>)
    requires Indistinguishable(a, h1, b, h2)
    ensures ComputeContract(a, h1, c, inputs) == ComputeContract(b, h2, c, inputs)
  {
    hide Gate, ContextOf, Effects;
    assert SameReplies(a.ports, h1, h2);
    var stamp := DidStamp(a.ports.now(h1));
    Later(a, h1, b, h2, [stamp]);
    assert SameReplies(a.ports, h1 + [stamp], h2 + [stamp]);
  }

  lemma SameNotify(a: Env, h1: History, b: Env, h2: History, callback: Callback, notice: WebhookPayload)
    requires Indistinguishable(a, h1, b, h2)
    ensures a.ports.notify(h1, callback, notice) == b.ports.notify(h2, callback, notice)
  {
    assert SameReplies(a.ports, h1, h2);
  }

  /** Processing a contract gives the same outcome and makes the same calls on both sides. */
  lemma SameProcess(a: Env, h1: History, b: Env, h2: History, c: Contract)
    requires Indistinguishable(a, h1, b, h2)
    ensures Process(a, h1, c) == Process(b, h2, c)
  {
    hide AuthorizeContract, ResolveContract, Loading, ComputeContract, Saving, SuccessPayload, Indistinguishable;
    SameAuthorizeContract(a, h1, b, h2, c);
    var auth := AuthorizeContract(a, h1, c);
    var s1 := auth.seg;
    Later(a, h1, b, h2, s1);
    SameResolveContract(a, h1 + s1, b, h2 + s1, c);
    var creds := ResolveContract(a, h1 + s1, c);
    var s2 := s1 + creds.seg;
    Later(a, h1, b, h2, s2);
    if auth.out.Ok? && creds.out.Ok? {
      SameLoading(a, h1 + s2, b, h2 + s2, c.inputs, creds.out.value.inputs, 0, []);
      var loaded := Loading(a, h1 + s2, c.inputs, creds.out.value.inputs, 0, []);
      var s3 := s2 + loaded.seg;
      Later(a, h1, b, h2, s3);
      if loaded.out.Ok? {
        SameComputeContract(a, h1 + s3, b, h2 + s3, c, loaded.out.value);
        var computed := ComputeContract(a, h1 + s3, c, loaded.out.value);
        var s4 := s3 + computed.seg;
        Later(a, h1, b, h2, s4);
        if computed.out.Ok? {
          var result := computed.out.value.result;
          SameSaving(a, h1 + s4, b, h2 + s4, c.outputs, creds.out.value.outputs, result.byRole, 0, []);
          var saved := Saving(a, h1 + s4, c.outputs, creds.out.value.outputs, result.byRole, 0, []);
          var s5 := s4 + saved.seg;
          Later(a, h1, b, h2, s5);
          if saved.out.Ok? {
            SameNotify(a, h1 + s5, b, h2 + s5, c.callback,
                       SuccessPayload(c.envelope.requestId, saved.out.value, result.metadata));
          }
        }
      }
    }
  }

  // ---------------------------------------------------------------- the receiver's part leaves no effect

  lemma {:induction false} AuthorizingIsSilent(env: Env, h: History, uris: seq<string>, identity: Identity, i: nat)
    requires i <= |uris|
    ensures forall e | e in Authorizing(env, h, uris, identity, i).seg :: e.DidAuthorize?
    decreases |uris| - i
  {
    hide CheckScheme;
    if i < |uris| {
      AuthorizingIsSilent(env, h + [DidAuthorize(uris[i], identity, env.ports.authorize(h, uris[i], identity))], uris,
                          identity, i + 1);
    }
  }

  lemma AuthorizeIsSilent(env: Env, h: History, c: Contract)
    ensures forall e | e in AuthorizeContract(env, h, c).seg :: e.DidAuthorize?
  {
    hide Authorizing;
    AuthorizingIsSilent(env, h, InputUris(c), c.identity, 0);
    AuthorizingIsSilent(env, h + Authorizing(env, h, InputUris(c), c.identity, 0).seg, OutputUris(c), c.identity, 0);
  }

  lemma {:induction false} SilentIsNoEffect(seg: History)
    requires forall e | e in seg :: e.DidAuthorize? || e.DidDispatch?
    ensures Effects(seg) == []
  {
    if seg != [] {
      assert seg[|seg| - 1] in seg;
      SilentIsNoEffect(seg[..|seg| - 1]);
    }
  }

  // ---------------------------------------------------------------- what the worker admits

  /** A worker of the same service, whose decoder reads raw JSON objects. */
  ghost predicate WorkerOf(work: Env, env: Env) {
    Alike(env, work) && forall j: Json :: j.Obj? ==> work.ports.decode(env.text.dumps(j)) == Done(j.fields)
  }

  lemma WrittenVersion(c: Contract, inputs: Json, outputs: Json)
    requires c.envelope.version in SUPPORTED_VERSIONS
    ensures !UnsupportedVersion(ContractJson(c, inputs, outputs).fields)
  {
    ContractFields(c, inputs, outputs);
    var e, j := DumpEnvelope(c.envelope), ContractJson(c, inputs, outputs);
    assert Obj(j.fields) == j;
    assert TextAt(e, "protocol_version") == Some(c.envelope.version);
    hide ContractJson, DumpEnvelope, Field, TextAt;
  }

  /** What the worker's first two steps make of a dispatched payload. */
  lemma WorkerReads(work: Env, env: Env, c: Contract)
    requires WorkerOf(work, env) && c.envelope.version in SUPPORTED_VERSIONS
    ensures DecodeAndValidate(work.ports, env.text.dumps(Dump(c)), work.leaves, work.params) ==
            match Validate(Dump(c), env.leaves, env.params)
            case Some(again) => Admission(again.envelope.requestId, Ok(again))
            case None => Admission(PLACEHOLDER_REQUEST_ID, Typed(InvalidContract))
  {
    WrittenVersion(c, DumpList(c.inputs, DumpInput), DumpList(c.outputs, DumpOutput));
    assert Obj(Dump(c).fields) == Dump(c);
    hide Validate, Dump, UnsupportedVersion;
  }

  // ---------------------------------------------------------------- receiver and worker against monolith

  /** The outcome of a worker run is decided by what it admits. */
  lemma SameAdmissionSameRun(work: Env, h2: History, payload: Bytes, mono: Env, h1: History, raw: Bytes)
    requires Indistinguishable(mono, h1, work, h2)
    requires Admit(work, payload) == Admit(mono, raw)
    ensures FullPipeline(work, h2, payload) == FullPipeline(mono, h1, raw)
  {
    hide Admit, Process, Indistinguishable, Failed;
    var a := Admit(mono, raw);
    if a.out.Ok? {
      SameProcess(mono, h1, work, h2, a.out.value);
    }
  }

  lemma AdmittedIsValid(env: Env, raw: Bytes)
    requires Admit(env, raw).out.Ok? && env.leaves.Stable() && StableParams(env.params)
    ensures var a := Admit(env, raw);
      && ValidContract(a.out.value, env.leaves, env.params) && CheckRoles(env, a.out.value).Ok?
      && a.requestId == a.out.value.envelope.requestId
  {
    hide Validate, CheckRoles, UnsupportedVersion;
    var payload := env.ports.decode(raw).value;
    assert Validate(Obj(payload), env.leaves, env.params) == Some(Admit(env, raw).out.value);
    ValidatedIsValid(Obj(payload), env.leaves, env.params);
  }

  /** Nothing but authorizations, and then the dispatch of the dumped contract to a job. */
  ghost predicate OnlyDispatches(seg: History, job: string, bytes: Bytes, requestId: string) {
    && seg != [] && (forall i | 0 <= i < |seg| - 1 :: seg[i].DidAuthorize?)
    && var last := seg[|seg| - 1];
       last.DidDispatch? && last.job == job && last.contractBytes == bytes && last.requestId == requestId
  }

  /** The calls of a receiver run that dispatched. */
  lemma DispatchedCalls(env: Env, h: History, raw: Bytes)
    requires Receiver(env, h, raw).result.Dispatched?
    ensures Admit(env, raw).out.Ok? && env.workerJob.Some?
    ensures var c, seg := Admit(env, raw).out.value, Receiver(env, h, raw).seg;
      && OnlyDispatches(seg, env.workerJob.value, env.text.dumps(Dump(c)), c.envelope.requestId)
      && Effects(h + seg) == Effects(h)
  {
    hide Admit, AuthorizeContract, Effects, Dump, Failed;
    var c, seg := Admit(env, raw).out.value, Receiver(env, h, raw).seg;
    AuthorizeIsSilent(env, h, c);
    SilentIsNoEffect(seg);
    EffectsConcat(h, seg);
  }

  /** The payload a receiver run dispatched. */
  function PayloadOf(seg: History): Bytes
    requires seg != [] && seg[|seg| - 1].DidDispatch?
  {
    seg[|seg| - 1].contractBytes
  }

  lemma SupportedVersion(c: Contract, l: Leaves, params: ParamsReader)
    requires ValidContract(c, l, params)
    ensures c.envelope.version in SUPPORTED_VERSIONS
  {
  }

  lemma SameRoles(env: Env, work: Env)
    requires Alike(env, work)
    ensures forall c :: CheckRoles(work, c) == CheckRoles(env, c)
  {
  }

  /** The worker admits the contract the receiver admitted exactly when every credential reference
      in it has a text that reads back. */
  lemma WorkerAdmitsTheSameExactly(env: Env, work: Env, raw: Bytes)
    requires Admit(env, raw).out.Ok? && WorkerOf(work, env) && env.leaves.Stable() && StableParams(env.params)
    ensures var c := Admit(env, raw).out.value;
      Admit(work, env.text.dumps(Dump(c))) == Admit(env, raw) <==> PrintableRefs(c, env.leaves)
  {
    hide Validate, Dump, PrintableRefs, CheckRoles, DecodeAndValidate, UnsupportedVersion, ValidSections;
    AdmittedIsValid(env, raw);
    var c := Admit(env, raw).out.value;
    SupportedVersion(c, env.leaves, env.params);
    WorkerReads(work, env, c);
    ContractBack(c, env.leaves, env.params);
    SameRoles(env, work);
  }

  /** Split refines monolith: when a receiver dispatched, the worker's run on the payload it
      dispatched has the result and makes the calls of a monolith on the original message: status,
      request id, receipts, webhook payload and every write. */
  lemma SplitRefinesMonolith(env: Env, work: Env, h: History, raw: Bytes)
    requires Receiver(env, h, raw).result.Dispatched?
    requires WorkerOf(work, env) && Blind(env.ports) && env.leaves.Stable() && StableParams(env.params)
    requires PrintableRefs(Admit(env, raw).out.value, env.leaves)
    ensures var seg := Receiver(env, h, raw).seg;
      && seg != [] && seg[|seg| - 1].DidDispatch?
      && FullPipeline(work, h + seg, PayloadOf(seg)) == FullPipeline(env, h, raw)
  {
    hide Receiver, Admit, FullPipeline, Dump, PrintableRefs, Effects;
    DispatchedCalls(env, h, raw);
    WorkerAdmitsTheSameExactly(env, work, raw);
    var seg := Receiver(env, h, raw).seg;
    SameAdmissionSameRun(work, h + seg, PayloadOf(seg), env, h, raw);
  }

  /** And when decoding, validation, the role check or authorization fails, receiver and monolith
      return the same error under the same request id, with nothing read, written or notified. */
  lemma FailuresAgree(env: Env, h: History, raw: Bytes)
    requires !Admit(env, raw).out.Ok? || !AuthorizeContract(env, h, Admit(env, raw).out.value).out.Ok?
    ensures Receiver(env, h, raw) == FullPipeline(env, h, raw)
    ensures forall e | e in FullPipeline(env, h, raw).seg :: e.DidAuthorize?
  {
    hide Admit, AuthorizeContract, ResolveContract, Loading, ComputeContract, Saving, Failed;
    if Admit(env, raw).out.Ok? {
      AuthorizeIsSilent(env, h, Admit(env, raw).out.value);
    }
  }

  // ---------------------------------------------------------------- the shared receiver

  /** Each message is dispatched at most once, last, to the job registered for its service, after
      nothing but authorizations; a run with another result has dispatched nothing or had its one
      dispatch refused. */
  lemma SharedDispatchesOnce(env: Env, registry: Registry.ServiceRegistry, h: History, raw: Bytes)
    ensures var r := SharedReceiver(env, registry, h, raw);
      && (forall i | 0 <= i < |r.seg| - 1 :: r.seg[i].DidAuthorize?)
      && (r.seg != [] && !r.seg[|r.seg| - 1].DidAuthorize? ==>
            var last := r.seg[|r.seg| - 1];
            var a := DecodeAndValidate(env.ports, raw, env.leaves, OpaqueParams);
            && last.DidDispatch? && a.out.Ok?
            && a.out.value.service.name in registry && last.job == registry[a.out.value.service.name]
            && last.contractBytes == env.text.dumps(Dump(a.out.value))
            && last.requestId == a.out.value.envelope.requestId
            && (r.result.Dispatched? <==> last.jobId.Done?))
      && (r.result.Dispatched? ==> r.seg != [] && r.seg[|r.seg| - 1].DidDispatch?)
      && Effects(h + r.seg) == Effects(h)
  {
    hide DecodeAndValidate, AuthorizeContract, Effects, Dump, Failed;
    var a, seg := DecodeAndValidate(env.ports, raw, env.leaves, OpaqueParams),
        SharedReceiver(env, registry, h, raw).seg;
    if a.out.Ok? {
      AuthorizeIsSilent(env, h, a.out.value);
    }
    SilentIsNoEffect(seg);
    EffectsConcat(h, seg);
  }

  lemma OpaqueAdmission(env: Env, work: Env, raw: Bytes)
    requires DecodeAndValidate(env.ports, raw, env.leaves, OpaqueParams).out.Ok?
    requires WorkerOf(work, env) && env.leaves.Stable()
    ensures var c := DecodeAndValidate(env.ports, raw, env.leaves, OpaqueParams).out.value;
      var typed := DecodeAndValidate(env.ports, raw, env.leaves, env.params);
      var again := DecodeAndValidate(work.ports, env.text.dumps(Dump(c)), work.leaves, work.params);
      && (PrintableRefs(c, env.leaves) ==> again == typed)
      && (typed.out.Ok? && again == typed ==> PrintableRefs(c, env.leaves))
  {
    hide Validate, Dump, PrintableRefs, UnsupportedVersion, ValidSections;
    var c := DecodeAndValidate(env.ports, raw, env.leaves, OpaqueParams).out.value;
    var payload := env.ports.decode(raw).value;
    assert Validate(Obj(payload), env.leaves, OpaqueParams) == Some(c);
    OpaqueVersion(Obj(payload), env.leaves);
    OpaqueThenTyped(Obj(payload), env.leaves, env.params);
    WorkerReads(work, env, c);
  }

  /** The typed worker admits what the monolith admits of a message the shared receiver took exactly
      when every credential reference in it is printable. */
  lemma SharedWorkerAdmitsTheSameExactly(env: Env, work: Env, raw: Bytes)
    requires DecodeAndValidate(env.ports, raw, env.leaves, OpaqueParams).out.Ok? && Admit(env, raw).out.Ok?
    requires WorkerOf(work, env) && env.leaves.Stable()
    ensures var c := DecodeAndValidate(env.ports, raw, env.leaves, OpaqueParams).out.value;
      Admit(work, env.text.dumps(Dump(c))) == Admit(env, raw) <==> PrintableRefs(c, env.leaves)
  {
    hide DecodeAndValidate, Dump, PrintableRefs, CheckRoles;
    OpaqueAdmission(env, work, raw);
    SameRoles(env, work);
  }

  lemma OpaqueVersion(j: Json, l: Leaves)
    requires l.Stable() && Validate(j, l, OpaqueParams).Some?
    ensures Validate(j, l, OpaqueParams).value.envelope.version in SUPPORTED_VERSIONS
  {
    OpaqueIsStable();
    hide Validate;
    ValidatedIsValid(j, l, OpaqueParams);
    SupportedVersion(Validate(j, l, OpaqueParams).value, l, OpaqueParams);
  }

  lemma OpaqueIsStable()
    ensures StableParams(OpaqueParams)
  {
  }

  /** The shared receiver, which reads no parameters and checks no roles, followed by the typed
      worker, is the monolith: the worker's run equals the monolith's on the original message,
      whether it ends ok or in an error. */
  lemma SharedSplitIsMonolith(env: Env, work: Env, registry: Registry.ServiceRegistry, h: History, raw: Bytes)
    requires SharedReceiver(env, registry, h, raw).result.Dispatched?
    requires WorkerOf(work, env) && Blind(env.ports) && env.leaves.Stable()
    requires PrintableRefs(DecodeAndValidate(env.ports, raw, env.leaves, OpaqueParams).out.value, env.leaves)
    ensures var seg := SharedReceiver(env, registry, h, raw).seg;
      && seg != [] && seg[|seg| - 1].DidDispatch?
      && FullPipeline(work, h + seg, PayloadOf(seg)) == FullPipeline(env, h, raw)
  {
    hide SharedReceiver, DecodeAndValidate, CheckRoles, Effects, FullPipeline, PrintableRefs, Dump;
    SharedDispatchesOnce(env, registry, h, raw);
    OpaqueAdmission(env, work, raw);
    var seg := SharedReceiver(env, registry, h, raw).seg;
    SameRoles(env, work);
    SameAdmissionSameRun(work, h + seg, PayloadOf(seg), env, h, raw);
  }

  /** Nothing de-duplicates: a message delivered again to the shared receiver is dispatched again,
      to the same job with the same bytes. */
  lemma DispatchedAgain(env: Env, registry: Registry.ServiceRegistry, h: History, raw: Bytes)
    requires SharedReceiver(env, registry, h, raw).result.Dispatched? && Blind(env.ports)
    ensures var first := SharedReceiver(env, registry, h, raw).seg;
      var second := SharedReceiver(env, registry, h + first, raw).seg;
      && first != [] && first[|first| - 1].DidDispatch?
      && second != [] && second[|second| - 1].DidDispatch?
      && second[|second| - 1].job == first[|first| - 1].job
      && second[|second| - 1].contractBytes == first[|first| - 1].contractBytes
  {
    SharedDispatchesOnce(env, registry, h, raw);
    hide DecodeAndValidate, AuthorizeContract, Effects, Dump, Failed;
    var a, first := DecodeAndValidate(env.ports, raw, env.leaves, OpaqueParams),
        SharedReceiver(env, registry, h, raw).seg;
    SameAuthorizeContract(env, h, env, h + first, a.out.value);
  }
}
