/** What the backend and the storage port are given: the declared roles, and each specification's
    own credentials. */
module Givens {
  import opened Outcomes
  import opened Duplicates
  import opened Dicts
  import opened Json
  import opened Contracts
  import opened Readouts
  import opened Ports
  import opened Pipeline
  import opened EffectOrder

  lemma Planned(seg: History, plan: seq<Move>)
    requires Conforms(seg, plan)
    ensures forall e | e in seg :: MoveOf(e) in plan
  {
    forall e | e in seg ensures MoveOf(e) in plan {
      var k :| 0 <= k < |seg| && seg[k] == e;
      assert MoveOf(seg[k]) == plan[k];
    }
  }

  // ---------------------------------------------------------------- roles

  lemma {:induction false} LoadsEveryRole(env: Env, h: History, specs: seq<InputSpec>, creds: Dict<Credentials>, i: nat,
                                          acc: Dict<Bytes>)
    requires i <= |specs| && Loading(env, h, specs, creds, i, acc).out.Ok?
    ensures forall q :: q in Keys(Loading(env, h, specs, creds, i, acc).out.value) <==>
                        q in Keys(acc) || exists k :: i <= k < |specs| && specs[k].target.role == q
    decreases |specs| - i
  {
    if i < |specs| {
      var role, cred := specs[i].target.role, Lookup(creds, specs[i].target.role).value;
      var reply := env.ports.read(h, specs[i], cred);
      PutSize(acc, role, reply.value);
      LoadsEveryRole(env, h + [DidRead(specs[i], cred, reply)], specs, creds, i + 1, Put(acc, role, reply.value));
    }
  }

  /** The roles a backend sees are the declared ones: all it requires, and none it does not accept. */
  ghost predicate RolesFit(env: Env, c: Contract, inputs: Dict<Bytes>) {
    && (forall role | role in env.required :: role in Keys(inputs))
    && (forall role | role in Keys(inputs) :: role in env.required + env.optional)
    && (forall role :: role in Keys(inputs) <==> role in InputRoles(c))
  }

  lemma LoadedRolesFit(env: Env, h: History, c: Contract, creds: Dict<Credentials>)
    requires CheckRoles(env, c).Ok? && Loading(env, h, c.inputs, creds, 0, []).out.Ok?
    ensures RolesFit(env, c, Loading(env, h, c.inputs, creds, 0, []).out.value)
  {
    LoadsEveryRole(env, h, c.inputs, creds, 0, []);
    hide Loading;
    var inputs := Loading(env, h, c.inputs, creds, 0, []).out.value;
    forall role ensures role in Keys(inputs) <==> role in InputRoles(c) {
      if role in InputRoles(c) {
        var k :| 0 <= k < |c.inputs| && InputRoles(c)[k] == role;
        assert c.inputs[k].target.role == role;
      }
      if k :| 0 <= k < |c.inputs| && c.inputs[k].target.role == role {
        assert InputRoles(c)[k] == role;
      }
    }
    assert forall role :: role in RoleSet(InputRoles(c)) <==> role in InputRoles(c);
    var declared := RoleSet(InputRoles(c));
    forall role | role in env.required ensures role in declared {
      assert role !in env.required - declared;
    }
    forall role | role in declared ensures role in env.required + env.optional {
      assert role !in declared - (env.required + env.optional);
    }
  }

  /** And the role check refuses no contract whose roles fit. */
  lemma RoleCheckExactly(env: Env, c: Contract)
    ensures CheckRoles(env, c).Ok? <==>
      && (forall role | role in env.required :: role in InputRoles(c))
      && (forall role | role in InputRoles(c) :: role in env.required + env.optional)
      && (forall role :: role in OutputRoles(c) <==> role in ExpectedOutputRoles(env, c))
  {
    var inputs, outputs := RoleSet(InputRoles(c)), RoleSet(OutputRoles(c));
    assert env.required - inputs == {} <==> forall role | role in env.required :: role in inputs by {
      if forall role | role in env.required :: role in inputs { assert env.required - inputs == {}; }
      if env.required - inputs == {} { assert forall role | role in env.required :: role !in env.required - inputs; }
    }
    var accepted := env.required + env.optional;
    assert inputs - accepted == {} <==> forall role | role in inputs :: role in accepted by {
      if forall role | role in inputs :: role in accepted { assert inputs - accepted == {}; }
      if inputs - accepted == {} { assert forall role | role in inputs :: role !in inputs - accepted; }
    }
  }

  // ---------------------------------------------------------------- credentials

  /** The credentials of a need: empty ones without a reference, else an answer to resolving it. */
  ghost predicate Fits(need: Need, creds: Credentials, calls: History) {
    match need.ref
    case None => creds == NO_CREDENTIALS
    case Some(ref) => DidResolve(ref, Done(creds)) in calls
  }

  ghost predicate FitsAt(needs: seq<Need>, k: nat, dict: Dict<Credentials>, calls: History)
    requires k < |needs|
  {
    Get(dict, needs[k].role).Some? && Fits(needs[k], Get(dict, needs[k].role).value, calls)
  }

  ghost predicate DistinctNeeds(needs: seq<Need>) {
    forall i, j | 0 <= i < j < |needs| :: needs[i].role != needs[j].role
  }

  lemma FitsStill(needs: seq<Need>, i: nat, dict: Dict<Credentials>, calls: History, creds: Credentials, more: History)
    requires i < |needs| && DistinctNeeds(needs) && forall k | 0 <= k < i :: FitsAt(needs, k, dict, calls)
    requires Fits(needs[i], creds, calls + more)
    ensures forall k | 0 <= k < i + 1 :: FitsAt(needs, k, Put(dict, needs[i].role, creds), calls + more)
  {
    forall k | 0 <= k < i + 1 ensures FitsAt(needs, k, Put(dict, needs[i].role, creds), calls + more) {
      GetPut(dict, needs[i].role, creds, needs[k].role);
      if k < i { assert FitsAt(needs, k, dict, calls); }
    }
  }

  lemma {:induction false} ResolvesEachNeed(env: Env, h: History, needs: seq<Need>, i: nat, acc: Dict<Credentials>,
                                            calls: History)
    requires i <= |needs| && DistinctNeeds(needs) && forall k | 0 <= k < i :: FitsAt(needs, k, acc, calls)
    requires Resolving(env, h, needs, i, acc).out.Ok?
    ensures var s := Resolving(env, h, needs, i, acc);
      forall k | 0 <= k < |needs| :: FitsAt(needs, k, s.out.value, calls + s.seg)
    decreases |needs| - i
  {
    if i == |needs| {
      assert calls + [] == calls;
    } else {
      match needs[i].ref {
        case None =>
          FitsStill(needs, i, acc, calls, NO_CREDENTIALS, []);
          assert calls + [] == calls;
          ResolvesEachNeed(env, h, needs, i + 1, Put(acc, needs[i].role, NO_CREDENTIALS), calls);
        case Some(ref) =>
          var reply := env.ports.resolve(h, ref);
          var event := DidResolve(ref, reply);
          assert (calls + [event])[|calls|] == event;
          FitsStill(needs, i, acc, calls, reply.value, [event]);
          var more := Put(acc, needs[i].role, reply.value);
          ResolvesEachNeed(env, h + [event], needs, i + 1, more, calls + [event]);
          var rest := Resolving(env, h + [event], needs, i + 1, more).seg;
          assert (calls + [event]) + rest == calls + ([event] + rest);
      }
    }
  }

  /** The need behind a storage call, and the credentials it was made with. */
  function NeedOf(e: Event): (Need, Credentials)
    requires e.DidRead? || e.DidWrite?
  {
    match e
    case DidRead(source, creds, _) => (Need(source.target.role, source.target.credential), creds)
    case DidWrite(sink, _, creds, _) => (Need(sink.target.role, sink.target.credential), creds)
  }

  ghost predicate WellCredentialed(e: Event, calls: History) {
    e.DidRead? || e.DidWrite? ==> Fits(NeedOf(e).0, NeedOf(e).1, calls)
  }

  lemma {:induction false} LoadsWithOwnCredentials(env: Env, h: History, specs: seq<InputSpec>,
                                                   creds: Dict<Credentials>, i: nat,
                                                   acc: Dict<Bytes>, needs: seq<Need>, calls: History)
    requires i <= |specs| == |needs| && forall k | 0 <= k < |specs| ::
               needs[k] == Need(specs[k].target.role, specs[k].target.credential)
    requires forall k | 0 <= k < |needs| :: FitsAt(needs, k, creds, calls)
    ensures forall e | e in Loading(env, h, specs, creds, i, acc).seg :: WellCredentialed(e, calls)
    decreases |specs| - i
  {
    hide Fits;
    if i < |specs| {
      assert FitsAt(needs, i, creds, calls);
      var cred := Lookup(creds, specs[i].target.role).value;
      var reply := env.ports.read(h, specs[i], cred);
      var event := DidRead(specs[i], cred, reply);
      assert WellCredentialed(event, calls);
      if reply.Done? {
        LoadsWithOwnCredentials(env, h + [event], specs, creds, i + 1, Put(acc, specs[i].target.role, reply.value),
                                needs, calls);
      }
    }
  }

  lemma {:induction false} SavesWithOwnCredentials(env: Env, h: History, specs: seq<OutputSpec>,
                                                   creds: Dict<Credentials>, byRole: map<string, Bytes>,
                                                   i: nat, acc: Dict<WriteReceipt>, needs: seq<Need>, calls: History)
    requires i <= |specs| == |needs| && forall k | 0 <= k < |specs| ::
               needs[k] == Need(specs[k].target.role, specs[k].target.credential)
    requires forall k | 0 <= k < |needs| :: FitsAt(needs, k, creds, calls)
    ensures forall e | e in Saving(env, h, specs, creds, byRole, i, acc).seg :: WellCredentialed(e, calls)
    decreases |specs| - i
  {
    hide Fits;
    if i < |specs| && specs[i].target.role in byRole {
      var role := specs[i].target.role;
      assert FitsAt(needs, i, creds, calls);
      var cred := Lookup(creds, role).value;
      var written := env.ports.write(h, specs[i], byRole[role], cred);
      var event := DidWrite(specs[i], byRole[role], cred, written);
      assert WellCredentialed(event, calls);
      if written.reply.Done? {
        SavesWithOwnCredentials(env, h + [event], specs, creds, byRole, i + 1, Put(acc, role, written.reply.value),
                                needs, calls);
      }
    }
  }

  lemma NeedsAreDistinct(c: Contract)
    requires Distinct(InputRoles(c)) && Distinct(OutputRoles(c))
    ensures DistinctNeeds(InputNeeds(c)) && DistinctNeeds(OutputNeeds(c))
  {
    forall i, j | 0 <= i < j < |InputNeeds(c)| ensures InputNeeds(c)[i].role != InputNeeds(c)[j].role {
      assert InputRoles(c)[i] != InputRoles(c)[j];
    }
    forall i, j | 0 <= i < j < |OutputNeeds(c)| ensures OutputNeeds(c)[i].role != OutputNeeds(c)[j].role {
      assert OutputRoles(c)[i] != OutputRoles(c)[j];
    }
  }

  lemma ResolvedFits(env: Env, h: History, c: Contract)
    requires Distinct(InputRoles(c)) && Distinct(OutputRoles(c)) && ResolveContract(env, h, c).out.Ok?
    ensures var s := ResolveContract(env, h, c);
      && (forall k | 0 <= k < |c.inputs| :: FitsAt(InputNeeds(c), k, s.out.value.inputs, s.seg))
      && (forall k | 0 <= k < |c.outputs| :: FitsAt(OutputNeeds(c), k, s.out.value.outputs, s.seg))
  {
    hide Resolving, Distinct, DistinctNeeds;
    NeedsAreDistinct(c);
    var a := Resolving(env, h, InputNeeds(c), 0, []);
    var b := Resolving(env, h + a.seg, OutputNeeds(c), 0, []);
    ResolvesEachNeed(env, h, InputNeeds(c), 0, [], []);
    ResolvesEachNeed(env, h + a.seg, OutputNeeds(c), 0, [], []);
    assert [] + a.seg == a.seg && [] + b.seg == b.seg;
    var all := a.seg + b.seg;
    forall k | 0 <= k < |c.inputs| ensures FitsAt(InputNeeds(c), k, a.out.value, all) {
      assert FitsAt(InputNeeds(c), k, a.out.value, a.seg);
    }
    forall k | 0 <= k < |c.outputs| ensures FitsAt(OutputNeeds(c), k, b.out.value, all) {
      assert FitsAt(OutputNeeds(c), k, b.out.value, b.seg);
    }
  }

  // ---------------------------------------------------------------- over a run

  lemma StepsBeforeReads(env: Env, h: History, c: Contract)
    ensures forall e | e in AuthorizeContract(env, h, c).seg +
                            ResolveContract(env, h + AuthorizeContract(env, h, c).seg, c).seg ::
              !e.DidRead? && !e.DidWrite? && !e.DidCompute?
  {
    hide AuthorizeContract, ResolveContract, Resolutions, Conforms, Completes, Uris;
    var s1 := AuthorizeContract(env, h, c).seg;
    AuthorizeOrder(env, h, c);
    Planned(s1, Authorizations(InputUris(c), 0) + Authorizations(OutputUris(c), 0));
    ResolveOrder(env, h + s1, c);
    Planned(ResolveContract(env, h + s1, c).seg, Resolutions(InputNeeds(c), 0) + Resolutions(OutputNeeds(c), 0));
  }

  /** What the calls of a run to the backend and to storage are given. */
  ghost predicate RightlyGiven(env: Env, c: Contract, e: Event, calls: History) {
    && (e.DidCompute? ==> RolesFit(env, c, e.inputs) && e.parameters == c.parameters)
    && WellCredentialed(e, calls)
  }

  /** Over every run: the backend is given exactly the declared input roles, which are those it
      requires and others it accepts; and every read and write is made with the credentials
      resolved, in this run, for the reference of its own specification, or with none. */
  lemma EveryCallIsRightlyGiven(env: Env, h: History, c: Contract)
    requires CheckRoles(env, c).Ok? && Distinct(InputRoles(c)) && Distinct(OutputRoles(c))
    ensures forall e | e in Process(env, h, c).seg :: RightlyGiven(env, c, e, Process(env, h, c).seg)
  {
    hide AuthorizeContract, ResolveContract, Loading, ComputeContract, Saving, SuccessPayload, CheckRoles, Distinct,
         RolesFit, Fits, FitsAt, Conforms, Completes;
    var seg := Process(env, h, c).seg;
    var auth := AuthorizeContract(env, h, c);
    var s1 := auth.seg;
    StepsBeforeReads(env, h, c);
    if auth.out.Ok? {
      var creds := ResolveContract(env, h + s1, c);
      var s2 := s1 + creds.seg;
      if creds.out.Ok? {
        ResolvedFits(env, h + s1, c);
        var bundle := creds.out.value;
        LoadsWithOwnCredentials(env, h + s2, c.inputs, bundle.inputs, 0, [], InputNeeds(c), creds.seg);
        var loaded := Loading(env, h + s2, c.inputs, bundle.inputs, 0, []);
        var s3 := s2 + loaded.seg;
        LoadingOrder(env, h + s2, c.inputs, bundle.inputs, 0, []);
        Planned(loaded.seg, Reads(c.inputs, 0));
        assert forall e | e in creds.seg :: e in seg;
        if loaded.out.Ok? {
          LoadedRolesFit(env, h + s2, c, bundle.inputs);
          var computed := ComputeContract(env, h + s3, c, loaded.out.value);
          ComputeCalls(env, h + s3, c, loaded.out.value);
          if computed.out.Ok? {
            var s4, byRole := s3 + computed.seg, computed.out.value.result.byRole;
            SavesWithOwnCredentials(env, h + s4, c.outputs, bundle.outputs, byRole, 0, [], OutputNeeds(c), creds.seg);
            SavingPayloads(env, h + s4, c.outputs, bundle.outputs, byRole, 0, []);
          }
        }
        CredentialsInRun(env, c, seg, creds.seg);
      }
    }
  }

  lemma ComputeCalls(env: Env, h: History, c: Contract, inputs: Dict<Bytes>)
    ensures forall e | e in ComputeContract(env, h, c, inputs).seg ::
      !e.DidRead? && !e.DidWrite? && (e.DidCompute? ==> e.inputs == inputs && e.parameters == c.parameters)
  {
    hide Gate, ContextOf;
  }

  lemma CredentialsInRun(env: Env, c: Contract, seg: History, calls: History)
    requires forall e | e in calls :: e in seg
    requires forall e | e in seg :: WellCredentialed(e, calls)
    ensures forall e | e in seg :: WellCredentialed(e, seg)
  {
  }

  // ---------------------------------------------------------------- what the backend computes on

  /** One successful read per specification, in order. */
  ghost predicate AreReads(got: History, specs: seq<InputSpec>) {
    && |got| == |specs|
    && forall k | 0 <= k < |got| :: got[k].DidRead? && got[k].source == specs[k] && got[k].bytes.Done?
  }

  ghost function ReadPairs(got: History, specs: seq<InputSpec>): (pairs: seq<(string, Bytes)>)
    requires AreReads(got, specs)
    ensures |pairs| == |got|
    ensures forall k | 0 <= k < |pairs| :: pairs[k] == (specs[k].target.role, got[k].bytes.value)
  {
    seq(|got|, k requires 0 <= k < |got| => (specs[k].target.role, got[k].bytes.value))
  }

  lemma ReadPairsMore(got: History, specs: seq<InputSpec>, i: nat, e: Event)
    requires i < |specs| && AreReads(got, specs[..i])
    requires e.DidRead? && e.source == specs[i] && e.bytes.Done?
    ensures AreReads(got + [e], specs[..i + 1])
    ensures DictOf(ReadPairs(got + [e], specs[..i + 1])) ==
            Put(DictOf(ReadPairs(got, specs[..i])), specs[i].target.role, e.bytes.value)
  {
    hide DictOf, Put;
    assert specs[..i + 1] == specs[..i] + [specs[i]];
    PairsMore(got, specs[..i], e, specs[i]);
    DictOfMore(ReadPairs(got, specs[..i]), specs[i].target.role, e.bytes.value);
  }

  lemma PairsMore(got: History, specs: seq<InputSpec>, e: Event, spec: InputSpec)
    requires AreReads(got, specs) && e.DidRead? && e.source == spec && e.bytes.Done?
    ensures AreReads(got + [e], specs + [spec])
    ensures ReadPairs(got + [e], specs + [spec]) == ReadPairs(got, specs) + [(spec.target.role, e.bytes.value)]
  {
  }

  lemma {:induction false} LoadingCollects(env: Env, h: History, specs: seq<InputSpec>, creds: Dict<Credentials>,
                                           i: nat, acc: Dict<Bytes>, done: History)
    requires i <= |specs| && AreReads(done, specs[..i]) && acc == DictOf(ReadPairs(done, specs[..i]))
    requires Loading(env, h, specs, creds, i, acc).out.Ok?
    ensures var s := Loading(env, h, specs, creds, i, acc);
      AreReads(done + s.seg, specs) && s.out.value == DictOf(ReadPairs(done + s.seg, specs))
    decreases |specs| - i
  {
    hide Put, Get, DictOf;
    if i == |specs| {
      assert specs[..i] == specs && done + [] == done;
    } else {
      var cred := Lookup(creds, specs[i].target.role).value;
      var e := DidRead(specs[i], cred, env.ports.read(h, specs[i], cred));
      var more := Put(acc, specs[i].target.role, e.bytes.value);
      ReadPairsMore(done, specs, i, e);
      LoadingCollects(env, h + [e], specs, creds, i + 1, more, done + [e]);
      var rest := Loading(env, h + [e], specs, creds, i + 1, more).seg;
      assert (done + [e]) + rest == done + ([e] + rest);
    }
  }

  /** The call at position `j` asks the backend about what the calls just before it read and the clock
      then said. */
  ghost predicate FedByReads(c: Contract, seg: History, j: nat) {
    && |c.inputs| < j < |seg|
    && var got, stamp, e := seg[j - 1 - |c.inputs|..j - 1], seg[j - 1], seg[j];
    && AreReads(got, c.inputs) && stamp.DidStamp? && stamp.time.Done?
    && e.DidCompute? && e.inputs == DictOf(ReadPairs(got, c.inputs)) && e.parameters == c.parameters
    && e.context == ContextOf(c, stamp.time.value)
  }

  lemma ComputeFed(env: Env, h: History, c: Contract, inputs: Dict<Bytes>, before: History, got: History, rest: History,
                   j: nat)
    requires AreReads(got, c.inputs) && inputs == DictOf(ReadPairs(got, c.inputs))
    requires (forall e | e in before + got :: !e.DidCompute?) && forall e | e in rest :: !e.DidCompute?
    requires var seg := before + got + ComputeContract(env, h, c, inputs).seg + rest; j < |seg| && seg[j].DidCompute?
    ensures FedByReads(c, before + got + ComputeContract(env, h, c, inputs).seg + rest, j)
  {
    hide Gate, ContextOf, DictOf, ReadPairs;
    var computed := ComputeContract(env, h, c, inputs).seg;
    var seg, n := before + got + computed + rest, |before| + |got|;
    forall k | 0 <= k < n ensures !seg[k].DidCompute? {
      assert seg[k] == (before + got)[k] && (before + got)[k] in before + got;
    }
    forall k | n + |computed| <= k < |seg| ensures !seg[k].DidCompute? {
      assert seg[k] == rest[k - n - |computed|] && rest[k - n - |computed|] in rest;
    }
    assert seg[j] == computed[j - n];
    assert j == n + 1 && seg[j - 1] == computed[0];
    assert seg[j - 1 - |c.inputs|..j - 1] == got;
  }

  /** Over every run: the backend is asked about exactly the bytes read, role by role in contract order,
      under the clock's answer. */
  lemma BackendGetsWhatWasRead(env: Env, h: History, c: Contract, j: nat)
    requires j < |Process(env, h, c).seg| && Process(env, h, c).seg[j].DidCompute?
    ensures FedByReads(c, Process(env, h, c).seg, j)
  {
    hide AuthorizeContract, ResolveContract, Loading, ComputeContract, Saving, SuccessPayload, FedByReads, Conforms,
         Completes, AreReads, ReadPairs, DictOf, Reads;
    var seg := Process(env, h, c).seg;
    assert seg[j] in seg;
    var auth := AuthorizeContract(env, h, c);
    var s1 := auth.seg;
    StepsBeforeReads(env, h, c);
    var creds := ResolveContract(env, h + s1, c);
    var s2 := s1 + creds.seg;
    var loaded := Loading(env, h + s2, c.inputs, creds.out.value.inputs, 0, []);
    LoadingOrder(env, h + s2, c.inputs, creds.out.value.inputs, 0, []);
    Planned(loaded.seg, Reads(c.inputs, 0));
    NothingRead(c.inputs);
    LoadingCollects(env, h + s2, c.inputs, creds.out.value.inputs, 0, [], []);
    assert [] + loaded.seg == loaded.seg;
    var s3 := s2 + loaded.seg;
    var computed := ComputeContract(env, h + s3, c, loaded.out.value);
    var s4 := s3 + computed.seg;
    var rest := seg[|s4|..];
    assert seg == s4 + rest;
    if computed.out.Ok? {
      SavingPayloads(env, h + s4, c.outputs, creds.out.value.outputs, computed.out.value.result.byRole, 0, []);
    }
    ComputeFed(env, h + s3, c, loaded.out.value, s2, loaded.seg, rest, j);
  }

  lemma NothingRead(specs: seq<InputSpec>)
    ensures AreReads([], specs[..0]) && DictOf(ReadPairs([], specs[..0])) == []
  {
  }
}
