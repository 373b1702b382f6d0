/** Runs over a store: what a complete run leaves there, and what any number of failed, killed and
    repeated runs of the same message leave there. */
module Redelivery {
  import opened Outcomes
  import opened Duplicates
  import opened Dicts
  import opened Json
  import opened Contracts
  import opened Readouts
  import opened Ports
  import opened Pipeline
  import EffectOrder

  type Store = map<string, Bytes>

  /** What lies between a payload and the stored bytes, such as compression. */
  datatype Medium = Medium(pack: (OutputSpec, Bytes) -> Bytes, unpack: (InputSpec, Bytes) -> Option<Bytes>)

  function Apply(m: Medium, s: Store, e: Event): Store {
    if e.DidWrite? && e.written.applied then s[e.sink.target.uri := m.pack(e.sink, e.payload)] else s
  }

  /** The store after the writes of a history. */
  function Replay(m: Medium, s: Store, h: History): Store {
    if h == [] then s else Apply(m, Replay(m, s, h[..|h| - 1]), h[|h| - 1])
  }

  lemma ReplayMore(m: Medium, s: Store, h: History, e: Event)
    ensures Replay(m, s, h + [e]) == Apply(m, Replay(m, s, h), e)
  {
    assert (h + [e])[..|h|] == h;
  }

  lemma {:induction false} ReplayConcat(m: Medium, s: Store, h: History, g: History)
    ensures Replay(m, s, h + g) == Replay(m, Replay(m, s, h), g)
  {
    if g == [] {
      assert h + g == h;
    } else {
      var init := g[..|g| - 1];
      ReplayConcat(m, s, h, init);
      assert (h + g)[..|h + g| - 1] == h + init;
    }
  }

  lemma {:induction false} ReplayQuiet(m: Medium, s: Store, h: History, g: History)
    requires forall e | e in g :: !e.DidWrite?
    ensures Replay(m, s, h + g) == Replay(m, s, h)
  {
    if g == [] {
      assert h + g == h;
    } else {
      var init := g[..|g| - 1];
      assert g[|g| - 1] in g;
      ReplayQuiet(m, s, h, init);
      assert (h + g)[..|h + g| - 1] == h + init;
    }
  }

  /** A storage port that may fail at any call, but reads what was stored when it answers, and has
      stored what it acknowledges. */
  ghost predicate Faithful(p: Ports, m: Medium, s0: Store) {
    && (forall h, spec, creds :: p.read(h, spec, creds).Done? ==>
          Holding(m, Replay(m, s0, h), spec) && p.read(h, spec, creds).value == Content(m, Replay(m, s0, h), spec))
    && (forall h, spec, b, creds :: p.write(h, spec, b, creds).reply.Done? ==> p.write(h, spec, b, creds).applied)
  }

  predicate Holding(m: Medium, s: Store, spec: InputSpec) {
    spec.target.uri in s && m.unpack(spec, s[spec.target.uri]).Some?
  }

  function Content(m: Medium, s: Store, spec: InputSpec): Bytes {
    if Holding(m, s, spec) then m.unpack(spec, s[spec.target.uri]).value else []
  }

  type Backend = (Dict<Bytes>, Json, ComputeContext) -> ComputeResult

  /** A backend and a clock that may fail, but never answer differently. */
  ghost predicate Deterministic(p: Ports, backend: Backend, time: string) {
    && (forall h, i, q, x :: p.compute(h, i, q, x).Done? ==> p.compute(h, i, q, x).value == backend(i, q, x))
    && (forall h :: p.now(h).Done? ==> p.now(h).value == time)
  }

  function Sources(m: Medium, s: Store, specs: seq<InputSpec>): (pairs: seq<(string, Bytes)>)
    ensures |pairs| == |specs|
    ensures forall i | 0 <= i < |pairs| :: pairs[i] == (specs[i].target.role, Content(m, s, specs[i]))
  {
    seq(|specs|, i requires 0 <= i < |specs| => (specs[i].target.role, Content(m, s, specs[i])))
  }

  /** What the backend makes of the sources in a store. */
  function ResultOn(m: Medium, s: Store, c: Contract, backend: Backend, time: string): map<string, Bytes> {
    backend(DictOf(Sources(m, s, c.inputs)), c.parameters, ContextOf(c, time)).byRole
  }

  /** The store overwritten at the destinations, in contract order from position `i` on. */
  function Overwrite(m: Medium, s: Store, specs: seq<OutputSpec>, byRole: map<string, Bytes>, i: nat): Store
    requires i <= |specs|
    decreases |specs| - i
  {
    if i == |specs| then s
    else
      var role := specs[i].target.role;
      var payload := if role in byRole then byRole[role] else [];
      Overwrite(m, s[specs[i].target.uri := m.pack(specs[i], payload)], specs, byRole, i + 1)
  }

  /** What one complete run leaves. */
  function Settled(m: Medium, s: Store, c: Contract, backend: Backend, time: string): Store {
    Overwrite(m, s, c.outputs, ResultOn(m, s, c, backend, time), 0)
  }

  // ---------------------------------------------------------------- one run

  lemma {:induction false} LoadsSources(env: Env, h: History, m: Medium, s0: Store, specs: seq<InputSpec>,
                                        creds: Dict<Credentials>, i: nat, acc: Dict<Bytes>)
    requires Faithful(env.ports, m, s0) && i <= |specs|
    requires acc == DictOf(Sources(m, Replay(m, s0, h), specs)[..i])
    ensures var s := Loading(env, h, specs, creds, i, acc);
      && (s.out.Ok? ==> s.out.value == DictOf(Sources(m, Replay(m, s0, h), specs)))
      && (forall e | e in s.seg :: !e.DidWrite?)
    decreases |specs| - i
  {
    hide Put, DictOf, Get;
    var pairs := Sources(m, Replay(m, s0, h), specs);
    if i == |specs| {
      assert pairs[..i] == pairs;
    } else if Lookup(creds, specs[i].target.role).Ok? {
      var cred := Lookup(creds, specs[i].target.role).value;
      var reply := env.ports.read(h, specs[i], cred);
      var event := DidRead(specs[i], cred, reply);
      if reply.Done? {
        ReplayMore(m, s0, h, event);
        DictOfMore(pairs[..i], specs[i].target.role, reply.value);
        assert pairs[..i + 1] == pairs[..i] + [(specs[i].target.role, reply.value)];
        LoadsSources(env, h + [event], m, s0, specs, creds, i + 1, Put(acc, specs[i].target.role, reply.value));
      }
    }
  }

  lemma {:induction false} SavesAll(env: Env, h: History, m: Medium, s0: Store, specs: seq<OutputSpec>,
                                    creds: Dict<Credentials>,
                                    byRole: map<string, Bytes>, i: nat, acc: Dict<WriteReceipt>)
    requires Faithful(env.ports, m, s0) && i <= |specs|
    requires Saving(env, h, specs, creds, byRole, i, acc).out.Ok?
    ensures Replay(m, s0, h + Saving(env, h, specs, creds, byRole, i, acc).seg) ==
            Overwrite(m, Replay(m, s0, h), specs, byRole, i)
    decreases |specs| - i
  {
    hide Put, Get;
    if i == |specs| {
      assert h + [] == h;
    } else {
      var role := specs[i].target.role;
      var cred := Lookup(creds, role).value;
      var written := env.ports.write(h, specs[i], byRole[role], cred);
      var event := DidWrite(specs[i], byRole[role], cred, written);
      var more := Put(acc, role, written.reply.value);
      ReplayMore(m, s0, h, event);
      SavesAll(env, h + [event], m, s0, specs, creds, byRole, i + 1, more);
      var rest := Saving(env, h + [event], specs, creds, byRole, i + 1, more).seg;
      assert h + ([event] + rest) == (h + [event]) + rest;
    }
  }

  lemma ComputesOn(env: Env, h: History, c: Contract, inputs: Dict<Bytes>, backend: Backend, time: string)
    requires Deterministic(env.ports, backend, time)
    ensures var s := ComputeContract(env, h, c, inputs);
      && (s.out.Ok? ==> s.out.value.result == backend(inputs, c.parameters, ContextOf(c, time)))
      && (forall e | e in s.seg :: !e.DidWrite?)
  {
    hide Gate, ContextOf;
  }

  lemma BeforeReading(env: Env, h: History, c: Contract)
    ensures forall e | e in AuthorizeContract(env, h, c).seg +
                            ResolveContract(env, h + AuthorizeContract(env, h, c).seg, c).seg :: !e.DidWrite?
  {
    EffectOrder.AuthorizeOrder(env, h, c);
    EffectOrder.ResolveOrder(env, h + AuthorizeContract(env, h, c).seg, c);
    hide AuthorizeContract, ResolveContract, EffectOrder.Resolutions;
    EffectOrder.NoWriteIn(AuthorizeContract(env, h, c).seg,
      EffectOrder.Authorizations(InputUris(c), 0) + EffectOrder.Authorizations(OutputUris(c), 0));
    EffectOrder.NoWriteIn(ResolveContract(env, h + AuthorizeContract(env, h, c).seg, c).seg,
      EffectOrder.Resolutions(InputNeeds(c), 0) + EffectOrder.Resolutions(OutputNeeds(c), 0));
  }

  /** Every write a run makes, complete or not, stores what the backend makes of the sources as
      they were when the run began; and a run that ends well has made them all. */
  lemma WritesOfRun(env: Env, h: History, c: Contract, m: Medium, s0: Store, backend: Backend, time: string)
    requires Faithful(env.ports, m, s0) && Deterministic(env.ports, backend, time)
    ensures var seg, s := Process(env, h, c).seg, Replay(m, s0, h);
      && (forall e | e in seg && e.DidWrite? ::
            e.sink in c.outputs && EffectOrder.WritesOf(e, ResultOn(m, s, c, backend, time)))
      && (Process(env, h, c).out.Ok? ==> Replay(m, s0, h + seg) == Settled(m, s, c, backend, time))
  {
    hide AuthorizeContract, ResolveContract, Loading, ComputeContract, Saving, SuccessPayload, Faithful, Deterministic;
    hide Replay, Sources, DictOf, EffectOrder.WritesOf, Overwrite, ContextOf;
    var s := Replay(m, s0, h);
    var auth := AuthorizeContract(env, h, c);
    var s1 := auth.seg;
    BeforeReading(env, h, c);
    if auth.out.Ok? {
      var creds := ResolveContract(env, h + s1, c);
      var s2 := s1 + creds.seg;
      ReplayQuiet(m, s0, h, s2);
      if creds.out.Ok? {
        EmptyStart(m, s, c.inputs);
        LoadsSources(env, h + s2, m, s0, c.inputs, creds.out.value.inputs, 0, []);
        var loaded := Loading(env, h + s2, c.inputs, creds.out.value.inputs, 0, []);
        var s3 := s2 + loaded.seg;
        ReplayQuiet(m, s0, h, s3);
        if loaded.out.Ok? {
          ComputesOn(env, h + s3, c, loaded.out.value, backend, time);
          var computed := ComputeContract(env, h + s3, c, loaded.out.value);
          var s4 := s3 + computed.seg;
          ReplayQuiet(m, s0, h, s4);
          if computed.out.Ok? {
            var byRole := computed.out.value.result.byRole;
            EffectOrder.SavingPayloads(env, h + s4, c.outputs, creds.out.value.outputs, byRole, 0, []);
            var saved := Saving(env, h + s4, c.outputs, creds.out.value.outputs, byRole, 0, []);
            var s5 := s4 + saved.seg;
            if saved.out.Ok? {
              SavesAll(env, h + s4, m, s0, c.outputs, creds.out.value.outputs, byRole, 0, []);
              assert (h + s4) + saved.seg == h + s5;
              NotifyQuiet(m, s0, h, s5, Process(env, h, c).seg);
            }
          }
        }
      }
    }
  }

  lemma EmptyStart(m: Medium, s: Store, specs: seq<InputSpec>)
    ensures DictOf(Sources(m, s, specs)[..0]) == []
  {
  }

  lemma NotifyQuiet(m: Medium, s0: Store, h: History, before: History, seg: History)
    requires |seg| == |before| + 1 && seg[..|before|] == before && seg[|before|].DidNotify?
    ensures Replay(m, s0, h + seg) == Replay(m, s0, h + before)
  {
    assert h + seg == (h + before) + [seg[|before|]];
    ReplayMore(m, s0, h + before, seg[|before|]);
  }

  // ---------------------------------------------------------------- many runs

  /** A history of deliveries of one message: each run is cut short after some number of its calls,
      by a crash, or runs to its end, well or not. */
  function Deliveries(env: Env, h: History, raw: Bytes, cuts: seq<nat>): History {
    if cuts == [] then h
    else
      var before := Deliveries(env, h, raw, cuts[..|cuts| - 1]);
      before + Cut(FullPipeline(env, before, raw).seg, cuts[|cuts| - 1])
  }

  function Cut(seg: History, n: nat): (r: History)
    ensures r <= seg
    ensures n >= |seg| ==> r == seg
  {
    if n < |seg| then seg[..n] else seg
  }

  /** The two stores agree on every URI outside `uris`. */
  ghost predicate AgreeOutside(s: Store, t: Store, uris: seq<string>) {
    forall u | u !in uris :: (u in s <==> u in t) && (u in s ==> s[u] == t[u])
  }

  lemma {:induction false} WritesOnlyAt(m: Medium, s: Store, seg: History, outputs: seq<OutputSpec>, uris: seq<string>)
    requires forall e | e in seg && e.DidWrite? :: e.sink in outputs
    requires forall o | o in outputs :: o.target.uri in uris
    ensures AgreeOutside(Replay(m, s, seg), s, uris)
  {
    if seg != [] {
      var init, last := seg[..|seg| - 1], seg[|seg| - 1];
      assert last in seg && forall e :: e in init ==> e in seg;
      WritesOnlyAt(m, s, init, outputs, uris);
    }
  }

  lemma DestinationsOf(c: Contract)
    ensures forall o | o in c.outputs :: o.target.uri in OutputUris(c)
  {
    forall o | o in c.outputs ensures o.target.uri in OutputUris(c) {
      var i :| 0 <= i < |c.outputs| && c.outputs[i] == o;
      assert OutputUris(c)[i] == o.target.uri;
    }
  }

  /** The writes of a run go to declared outputs, whatever its ports do. */
  lemma WritesAreDeclared(env: Env, h: History, c: Contract)
    ensures forall e | e in Process(env, h, c).seg && e.DidWrite? :: e.sink in c.outputs
  {
    hide Process, EffectOrder.Gated, EffectOrder.WritesOf;
    var seg := Process(env, h, c).seg;
    forall e | e in seg && e.DidWrite? ensures e.sink in c.outputs {
      var i :| 0 <= i < |seg| && seg[i] == e;
      EffectOrder.WritesAreGated(env, h, c, i);
    }
  }

  /** Deliveries touch the store at the destinations only, whatever their ports do. */
  lemma {:induction false} DeliveriesStayAt(env: Env, h: History, raw: Bytes, cuts: seq<nat>, c: Contract,
                                            m: Medium, s0: Store)
    requires Admit(env, raw).out == Ok(c)
    ensures AgreeOutside(Replay(m, s0, Deliveries(env, h, raw, cuts)), Replay(m, s0, h), OutputUris(c))
  {
    hide Admit, Process, Replay;
    if cuts != [] {
      var init := cuts[..|cuts| - 1];
      var before := Deliveries(env, h, raw, init);
      DeliveriesStayAt(env, h, raw, init, c, m, s0);
      WritesAreDeclared(env, before, c);
      var seg := Cut(FullPipeline(env, before, raw).seg, cuts[|cuts| - 1]);
      assert forall e :: e in seg ==> e in Process(env, before, c).seg;
      DestinationsOf(c);
      WritesOnlyAt(m, Replay(m, s0, before), seg, c.outputs, OutputUris(c));
      ReplayConcat(m, s0, before, seg);
    }
  }

  /** No input of the contract is read where one of its outputs is written. */
  ghost predicate Disjoint(c: Contract) {
    forall u | u in InputUris(c) :: u !in OutputUris(c)
  }

  lemma SameSources(m: Medium, s: Store, t: Store, c: Contract)
    requires AgreeOutside(s, t, OutputUris(c)) && Disjoint(c)
    ensures Sources(m, s, c.inputs) == Sources(m, t, c.inputs)
  {
    forall i | 0 <= i < |c.inputs| ensures Content(m, s, c.inputs[i]) == Content(m, t, c.inputs[i]) {
      assert InputUris(c)[i] == c.inputs[i].target.uri;
      assert InputUris(c)[i] in InputUris(c);
    }
  }

  /** Overwriting forgets what was at the destinations. */
  lemma {:induction false} OverwriteForgets(m: Medium, s: Store, t: Store, specs: seq<OutputSpec>,
                                            byRole: map<string, Bytes>, i: nat, uris: seq<string>)
    requires i <= |specs| && |uris| == |specs| && forall k | 0 <= k < |specs| :: uris[k] == specs[k].target.uri
    requires AgreeOutside(s, t, uris[i..])
    ensures Overwrite(m, s, specs, byRole, i) == Overwrite(m, t, specs, byRole, i)
    decreases |specs| - i
  {
    if i == |specs| {
      assert uris[i..] == [];
      assert forall u :: u !in uris[i..];
      assert forall u :: u in s <==> u in t;
      assert s == t;
    } else {
      var role, uri := specs[i].target.role, specs[i].target.uri;
      var bytes := m.pack(specs[i], if role in byRole then byRole[role] else []);
      assert uris[i..] == [uri] + uris[i + 1..];
      OverwriteForgets(m, s[uri := bytes], t[uri := bytes], specs, byRole, i + 1, uris);
    }
  }

  lemma SettledForgets(m: Medium, s: Store, t: Store, c: Contract, backend: Backend, time: string)
    requires AgreeOutside(s, t, OutputUris(c)) && Disjoint(c)
    ensures ResultOn(m, s, c, backend, time) == ResultOn(m, t, c, backend, time)
    ensures Settled(m, s, c, backend, time) == Settled(m, t, c, backend, time)
  {
    SameSources(m, s, t, c);
    assert OutputUris(c)[0..] == OutputUris(c);
    OverwriteForgets(m, s, t, c.outputs, ResultOn(m, s, c, backend, time), 0, OutputUris(c));
  }

  /** Redelivery converges: whatever failed and killed runs of the message came before, a run that
      ends well leaves the store that a single run from the initial store leaves. */
  lemma RedeliveryConverges(env: Env, raw: Bytes, cuts: seq<nat>, c: Contract, m: Medium, s0: Store, backend: Backend,
                            time: string)
    requires Admit(env, raw).out == Ok(c) && Disjoint(c)
    requires Faithful(env.ports, m, s0) && Deterministic(env.ports, backend, time)
    requires FullPipeline(env, Deliveries(env, [], raw, cuts), raw).result.Success?
    ensures var h := Deliveries(env, [], raw, cuts);
      Replay(m, s0, h + FullPipeline(env, h, raw).seg) == Settled(m, s0, c, backend, time)
  {
    hide Admit, Process, Faithful, Deterministic, Settled, AgreeOutside, Disjoint;
    var h := Deliveries(env, [], raw, cuts);
    DeliveriesStayAt(env, [], raw, cuts, c, m, s0);
    WritesOfRun(env, h, c, m, s0, backend, time);
    SettledForgets(m, Replay(m, s0, h), s0, c, backend, time);
  }

  /** So two deployments of the message, the one after any failures, the other in a single run and
      with ports that fail otherwise, leave the same store. */
  lemma RedeliveryIsSingleRun(env: Env, single: Env, raw: Bytes, cuts: seq<nat>, c: Contract, m: Medium, s0: Store,
                              backend: Backend, time: string)
    requires Admit(env, raw).out == Ok(c) && Admit(single, raw).out == Ok(c) && Disjoint(c)
    requires Faithful(env.ports, m, s0) && Deterministic(env.ports, backend, time)
    requires Faithful(single.ports, m, s0) && Deterministic(single.ports, backend, time)
    requires FullPipeline(env, Deliveries(env, [], raw, cuts), raw).result.Success?
    requires FullPipeline(single, [], raw).result.Success?
    ensures var h := Deliveries(env, [], raw, cuts);
      Replay(m, s0, h + FullPipeline(env, h, raw).seg) == Replay(m, s0, FullPipeline(single, [], raw).seg)
  {
    hide Admit, FullPipeline, Faithful, Deterministic, Settled, Disjoint, Replay;
    RedeliveryConverges(env, raw, cuts, c, m, s0, backend, time);
    assert Deliveries(single, [], raw, []) == [];
    RedeliveryConverges(single, raw, [], c, m, s0, backend, time);
    assert [] + FullPipeline(single, [], raw).seg == FullPipeline(single, [], raw).seg;
  }

  // ---------------------------------------------------------------- after a complete run

  /** At a destination the settled store holds the bytes of the last output written there. */
  lemma {:induction false} OverwriteHolds(m: Medium, s: Store, specs: seq<OutputSpec>, byRole: map<string, Bytes>,
                                          i: nat, k: nat)
    requires i <= k < |specs| && forall b | k < b < |specs| :: specs[b].target.uri != specs[k].target.uri
    requires specs[k].target.role in byRole
    ensures var t := Overwrite(m, s, specs, byRole, i);
      specs[k].target.uri in t && t[specs[k].target.uri] == m.pack(specs[k], byRole[specs[k].target.role])
    decreases |specs| - i
  {
    var role, uri := specs[i].target.role, specs[i].target.uri;
    var bytes := m.pack(specs[i], if role in byRole then byRole[role] else []);
    if i < k {
      OverwriteHolds(m, s[uri := bytes], specs, byRole, i + 1, k);
    } else {
      OverwriteKeeps(m, s[uri := bytes], specs, byRole, i + 1, uri);
    }
  }

  lemma {:induction false} OverwriteKeeps(m: Medium, s: Store, specs: seq<OutputSpec>, byRole: map<string, Bytes>,
                                          i: nat, u: string)
    requires i <= |specs| && forall k | i <= k < |specs| :: specs[k].target.uri != u
    ensures var t := Overwrite(m, s, specs, byRole, i); (u in t <==> u in s) && (u in s ==> t[u] == s[u])
    decreases |specs| - i
  {
    if i < |specs| {
      var role := specs[i].target.role;
      var bytes := m.pack(specs[i], if role in byRole then byRole[role] else []);
      OverwriteKeeps(m, s[specs[i].target.uri := bytes], specs, byRole, i + 1, u);
    }
  }

  lemma SettledAgrees(m: Medium, s: Store, c: Contract, backend: Backend, time: string)
    ensures AgreeOutside(Settled(m, s, c, backend, time), s, OutputUris(c))
  {
    forall u | u !in OutputUris(c)
      ensures (u in Settled(m, s, c, backend, time) <==> u in s) &&
              (u in s ==> Settled(m, s, c, backend, time)[u] == s[u])
    {
      assert forall k | 0 <= k < |c.outputs| :: c.outputs[k].target.uri == OutputUris(c)[k];
      OverwriteKeeps(m, s, c.outputs, ResultOn(m, s, c, backend, time), 0, u);
    }
  }

  /** A write the settled store already holds. */
  ghost predicate AlreadyThere(m: Medium, s: Store, e: Event) {
    e.DidWrite? ==> e.sink.target.uri in s && s[e.sink.target.uri] == m.pack(e.sink, e.payload)
  }

  lemma {:induction false} RewritingIsIdle(m: Medium, s: Store, seg: History)
    requires forall e | e in seg :: AlreadyThere(m, s, e)
    ensures Replay(m, s, seg) == s
  {
    if seg != [] {
      var init, last := seg[..|seg| - 1], seg[|seg| - 1];
      assert last in seg && forall e :: e in init ==> e in seg;
      RewritingIsIdle(m, s, init);
      assert AlreadyThere(m, s, last);
    }
  }

  /** Once a complete run has settled the store, nothing any later delivery of the message does,
      whole or cut short, changes it again, provided no two outputs share a destination. */
  lemma {:induction false} SettledStays(env: Env, h: History, raw: Bytes, cuts: seq<nat>, c: Contract, m: Medium,
                                        s0: Store, s: Store, backend: Backend, time: string)
    requires Admit(env, raw).out == Ok(c) && Disjoint(c) && Distinct(OutputUris(c))
    requires Faithful(env.ports, m, s0) && Deterministic(env.ports, backend, time)
    requires Replay(m, s0, h) == Settled(m, s, c, backend, time)
    ensures Replay(m, s0, Deliveries(env, h, raw, cuts)) == Settled(m, s, c, backend, time)
  {
    hide Admit, Process, Faithful, Deterministic, Replay, Settled, AgreeOutside, Disjoint, EffectOrder.WritesOf,
         Distinct, AlreadyThere;
    if cuts != [] {
      var init, t := cuts[..|cuts| - 1], Settled(m, s, c, backend, time);
      var before := Deliveries(env, h, raw, init);
      SettledStays(env, h, raw, init, c, m, s0, s, backend, time);
      WritesOfRun(env, before, c, m, s0, backend, time);
      SettledAgrees(m, s, c, backend, time);
      SettledForgets(m, t, s, c, backend, time);
      var seg := Cut(FullPipeline(env, before, raw).seg, cuts[|cuts| - 1]);
      forall e | e in seg ensures AlreadyThere(m, t, e) {
        assert e in Process(env, before, c).seg;
        WritesAgain(m, s, c, backend, time, e);
      }
      RewritingIsIdle(m, t, seg);
      ReplayConcat(m, s0, before, seg);
    }
  }

  lemma WritesAgain(m: Medium, s: Store, c: Contract, backend: Backend, time: string, e: Event)
    requires Distinct(OutputUris(c))
    requires e.DidWrite? ==> e.sink in c.outputs && EffectOrder.WritesOf(e, ResultOn(m, s, c, backend, time))
    ensures AlreadyThere(m, Settled(m, s, c, backend, time), e)
  {
    if e.DidWrite? {
      var k :| 0 <= k < |c.outputs| && c.outputs[k] == e.sink;
      assert forall a | 0 <= a < |c.outputs| :: c.outputs[a].target.uri == OutputUris(c)[a];
      OverwriteHolds(m, s, c.outputs, ResultOn(m, s, c, backend, time), 0, k);
    }
  }
}
