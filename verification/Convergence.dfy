/** Which contracts redelivery settles: those that read nothing they write, and to stay settled, that
    write nothing twice. */
module Convergence {
  import opened Outcomes
  import opened Duplicates
  import opened Dicts
  import opened Json
  import opened Contracts
  import opened Readouts
  import opened Ports
  import opened Pipeline
  import opened Interleaving
  import opened Redelivery
  import opened Witnesses
  import Progress
  import Totality
  import Urls
  import Verdicts

  /** A run of the message that ends well, after any deliveries of it, leaves what one run leaves. */
  ghost predicate Converges(env: Env, raw: Bytes, cuts: seq<nat>, c: Contract, m: Medium, s0: Store, backend: Backend,
                            time: string) {
    Admit(env, raw).out == Ok(c) && Faithful(env.ports, m, s0) && Deterministic(env.ports, backend, time) ==>
    var h := Deliveries(env, [], raw, cuts);
    FullPipeline(env, h, raw).result.Success? ==>
    Replay(m, s0, h + FullPipeline(env, h, raw).seg) == Settled(m, s0, c, backend, time)
  }

  /** Once the store is as a complete run leaves it, deliveries of the message leave it so. */
  ghost predicate Stays(env: Env, h: History, raw: Bytes, cuts: seq<nat>, c: Contract, m: Medium, s0: Store, s: Store,
                        backend: Backend, time: string) {
    && Admit(env, raw).out == Ok(c) && Faithful(env.ports, m, s0) && Deterministic(env.ports, backend, time)
    && Replay(m, s0, h) == Settled(m, s, c, backend, time) ==>
    Replay(m, s0, Deliveries(env, h, raw, cuts)) == Settled(m, s, c, backend, time)
  }

  // ---------------------------------------------------------------- the store at one destination

  lemma {:induction false} LastAt(uris: seq<string>, i: nat) returns (k: nat)
    requires i < |uris|
    ensures i <= k < |uris| && uris[k] == uris[i] && forall j | k < j < |uris| :: uris[j] != uris[k]
    decreases |uris| - i
  {
    k := i;
    if j :| i < j < |uris| && uris[j] == uris[i] { k := LastAt(uris, j); }
  }

  /** At a destination the settled store holds what the backend fills the role of the last output
      there with. */
  lemma SettledAt(s: Store, c: Contract, fill: (Dict<Bytes>, string) -> Bytes, time: string, i: nat) returns (k: nat)
    requires i < |c.outputs|
    ensures i <= k < |c.outputs| && c.outputs[k].target.uri == c.outputs[i].target.uri
    ensures var t, uri := Settled(Totality.RAW, s, c, BackendOf(c, fill), time), c.outputs[i].target.uri;
      uri in t && t[uri] == fill(DictOf(Sources(Totality.RAW, s, c.inputs)), c.outputs[k].target.role)
  {
    k := LastAt(OutputUris(c), i);
    forall b | k < b < |c.outputs| ensures c.outputs[b].target.uri != c.outputs[k].target.uri {
      assert OutputUris(c)[b] != OutputUris(c)[k];
    }
    FilledBy(s, c, fill, time, k);
    OverwriteHolds(Totality.RAW, s, c.outputs, ResultOn(Totality.RAW, s, c, BackendOf(c, fill), time), 0, k);
  }

  lemma FilledBy(s: Store, c: Contract, fill: (Dict<Bytes>, string) -> Bytes, time: string, k: nat)
    requires k < |c.outputs|
    ensures var byRole, role := ResultOn(Totality.RAW, s, c, BackendOf(c, fill), time), c.outputs[k].target.role;
      role in byRole && byRole[role] == fill(DictOf(Sources(Totality.RAW, s, c.inputs)), role)
  {
    hide Sources, DictOf, ContextOf;
    assert OutputRoles(c)[k] in RoleSet(OutputRoles(c));
  }

  /** And what a role-keyed dictionary of the sources holds for an input is the store's bytes. */
  lemma SourceAt(s: Store, c: Contract, i: nat)
    requires i < |c.inputs| && Distinct(InputRoles(c)) && c.inputs[i].target.uri in s
    ensures Get(DictOf(Sources(Totality.RAW, s, c.inputs)), c.inputs[i].target.role) == Some(s[c.inputs[i].target.uri])
  {
    var pairs := Sources(Totality.RAW, s, c.inputs);
    assert Keys(pairs) == InputRoles(c);
    DictOfDistinct(pairs);
    GetAt(pairs, i);
  }

  // ---------------------------------------------------------------- a contract that reads what it writes

  /** A backend that appends to the input of one role. */
  function Appending(role: string): (Dict<Bytes>, string) -> Bytes {
    (inputs, output) => match Get(inputs, role) case Some(bytes) => bytes + [0] case None => []
  }

  function EmptyInputs(c: Contract): Store { map uri | uri in InputUris(c) :: [] }

  lemma AppendsOnce(s: Store, c: Contract, time: string, i: nat, k: nat)
    requires i < |c.inputs| && k < |c.outputs| && c.inputs[i].target.uri == c.outputs[k].target.uri
    requires Distinct(InputRoles(c)) && c.inputs[i].target.uri in s
    ensures var uri := c.inputs[i].target.uri;
      var t := Settled(Totality.RAW, s, c, BackendOf(c, Appending(c.inputs[i].target.role)), time);
      uri in t && t[uri] == s[uri] + [0]
  {
    hide Settled, BackendOf;
    var last := SettledAt(s, c, Appending(c.inputs[i].target.role), time, k);
    SourceAt(s, c, i);
  }

  /** A whole delivery on an empty history, and another after it: each settles the store anew. */
  lemma TwoDeliveries(c: Contract, l: Leaves, params: ParamsReader, s0: Store, fill: (Dict<Bytes>, string) -> Bytes,
                      raw: Bytes)
    returns (cuts: seq<nat>)
    requires Servable(c, l, params) && Stocked(c, s0)
    ensures var backend := BackendOf(c, fill);
      var env := EnvOf(c, l, params, s0, backend, "");
      var h, once := Deliveries(env, [], raw, cuts), Settled(Totality.RAW, s0, c, backend, "");
      && Admit(env, raw).out == Ok(c) && Faithful(env.ports, Totality.RAW, s0) && Deterministic(env.ports, backend, "")
      && cuts == [|FullPipeline(env, [], raw).seg|] && FullPipeline(env, [], raw).result.Success?
      && Replay(Totality.RAW, s0, h) == once && FullPipeline(env, h, raw).result.Success?
      && Replay(Totality.RAW, s0, h + FullPipeline(env, h, raw).seg) == Settled(Totality.RAW, once, c, backend, "")
  {
    hide Admit, Process, Settled, EnvOf, BackendOf, Servable, Faithful, Deterministic, Progress.Willing;
    var backend := BackendOf(c, fill);
    var env := EnvOf(c, l, params, s0, backend, "");
    ServedWhole(c, l, params, s0, fill, "", [], raw);
    WritesOfRun(env, [], c, Totality.RAW, s0, backend, "");
    cuts := [|FullPipeline(env, [], raw).seg|];
    var h := Deliveries(env, [], raw, cuts);
    assert Deliveries(env, [], raw, cuts[..0]) == [];
    assert h == [] + Process(env, [], c).seg;
    ServedWhole(c, l, params, s0, fill, "", h, raw);
    WritesOfRun(env, h, c, Totality.RAW, s0, backend, "");
  }

  /** Settling again appends again. */
  lemma GrowsAgain(c: Contract, time: string, i: nat, k: nat, s0: Store)
    requires i < |c.inputs| && k < |c.outputs| && c.inputs[i].target.uri == c.outputs[k].target.uri
    requires Distinct(InputRoles(c)) && c.inputs[i].target.uri in s0
    ensures var backend := BackendOf(c, Appending(c.inputs[i].target.role));
      var once := Settled(Totality.RAW, s0, c, backend, time);
      Settled(Totality.RAW, once, c, backend, time) != once
  {
    hide Settled, BackendOf, Appending;
    var once := Settled(Totality.RAW, s0, c, BackendOf(c, Appending(c.inputs[i].target.role)), time);
    AppendsOnce(s0, c, time, i, k);
    AppendsOnce(once, c, time, i, k);
    var u := c.inputs[i].target.uri;
    assert |once[u]| == |s0[u]| + 1;
  }

  lemma Overlap(c: Contract, l: Leaves, params: ParamsReader) returns (i: nat, k: nat)
    requires Servable(c, l, params) && !Disjoint(c)
    ensures i < |c.inputs| && k < |c.outputs| && c.inputs[i].target.uri == c.outputs[k].target.uri
    ensures Distinct(InputRoles(c)) && Stocked(c, EmptyInputs(c)) && c.inputs[i].target.uri in EmptyInputs(c)
  {
    var u :| u in InputUris(c) && u in OutputUris(c);
    i :| 0 <= i < |c.inputs| && InputUris(c)[i] == u;
    k :| 0 <= k < |c.outputs| && OutputUris(c)[k] == u;
  }

  /** The run that shows it, for every contract with an input where one of its outputs goes. */
  lemma OverlapUnsettles(c: Contract, l: Leaves, params: ParamsReader, raw: Bytes)
    returns (env: Env, cuts: seq<nat>, s0: Store, backend: Backend)
    requires Servable(c, l, params) && !Disjoint(c)
    ensures !Converges(env, raw, cuts, c, Totality.RAW, s0, backend, "")
    ensures exists h: History, more: seq<nat> :: !Stays(env, h, raw, more, c, Totality.RAW, s0, s0, backend, "")
  {
    hide Admit, FullPipeline, Settled, EnvOf, BackendOf, Servable, Faithful, Deterministic, Replay, Appending,
         Deliveries, Disjoint, Stocked, EmptyInputs, Distinct, Totality.RAW;
    var i, k := Overlap(c, l, params);
    var fill := Appending(c.inputs[i].target.role);
    s0, backend := EmptyInputs(c), BackendOf(c, fill);
    env := EnvOf(c, l, params, s0, backend, "");
    cuts := TwoDeliveries(c, l, params, s0, fill, raw);
    GrowsAgain(c, "", i, k, s0);
    var h := Deliveries(env, [], raw, cuts);
    assert !Converges(env, raw, cuts, c, Totality.RAW, s0, backend, "");
    OneMoreDelivery(env, h, raw);
    assert !Stays(env, h, raw, [|FullPipeline(env, h, raw).seg|], c, Totality.RAW, s0, s0, backend, "");
  }

  lemma OneMoreDelivery(env: Env, h: History, raw: Bytes)
    ensures Deliveries(env, h, raw, [|FullPipeline(env, h, raw).seg|]) == h + FullPipeline(env, h, raw).seg
  {
    var cuts := [|FullPipeline(env, h, raw).seg|];
    hide FullPipeline;
    assert Deliveries(env, h, raw, cuts[..0]) == h;
  }

  /** Redelivery converges for exactly the contracts that read nothing they write: for every
      deployment, history, backend and store if they do not, and not for some if they do. */
  lemma ConvergesExactly(c: Contract, l: Leaves, params: ParamsReader)
    requires Servable(c, l, params)
    ensures Disjoint(c) <==>
      forall env: Env, raw, cuts, m, s0, backend, time :: Converges(env, raw, cuts, c, m, s0, backend, time)
  {
    hide Servable, Admit, FullPipeline, Disjoint, Faithful, Deterministic, Settled, Replay;
    if Disjoint(c) {
      forall env: Env, raw, cuts, m, s0, backend, time ensures Converges(env, raw, cuts, c, m, s0, backend, time) {
        if Admit(env, raw).out == Ok(c) && Faithful(env.ports, m, s0) && Deterministic(env.ports, backend, time)
           && FullPipeline(env, Deliveries(env, [], raw, cuts), raw).result.Success? {
          RedeliveryConverges(env, raw, cuts, c, m, s0, backend, time);
        }
      }
    } else {
      var env, cuts, s0, backend := OverlapUnsettles(c, l, params, []);
    }
  }

  // ---------------------------------------------------------------- a contract that writes one place twice

  /** A backend that tells one role from the others. */
  function Telling(role: string): (Dict<Bytes>, string) -> Bytes {
    (inputs, output) => if output == role then [1] else [0]
  }

  /** A successful run up to and including the write of its `a`-th output. */
  lemma WrittenUpTo(env: Env, h: History, c: Contract, m: Medium, s0: Store, backend: Backend, time: string, a: nat)
    requires Process(env, h, c).out.Ok? && Distinct(OutputRoles(c)) && a < |c.outputs|
    requires Faithful(env.ports, m, s0) && Deterministic(env.ports, backend, time)
    ensures var seg, byRole := Process(env, h, c).seg, ResultOn(m, Replay(m, s0, h), c, backend, time);
      var n, spec := |seg| - |c.outputs| + a, c.outputs[a];
      && 0 < n <= |seg| && spec.target.role in byRole
      && var s := Replay(m, s0, h + seg[..n]);
         spec.target.uri in s && s[spec.target.uri] == m.pack(spec, byRole[spec.target.role])
  {
    hide Process, Faithful, Deterministic, Replay, ResultOn, Totality.ReceiptsOf, Distinct, Settled, Overwrite;
    hide Verdicts.Genuine, AgreeOutside;
    Totality.ReceiptsLineUp(env, h, c);
    var seg := Process(env, h, c).seg;
    var writes := Totality.WritesIn(seg, |c.outputs|);
    WriteReceipted(Process(env, h, c).out.value.receipts, c.outputs, writes, a);
    var n := |seg| - |c.outputs| + a;
    var e := seg[n - 1];
    assert e == writes[a] && e in seg;
    WritesOfRun(env, h, c, m, s0, backend, time);
    Verdicts.RepliesAreThePorts(env, h, c);
    AppliedWhenDone(env, h + seg[..n - 1], c, e, m, s0);
    assert h + seg[..n] == (h + seg[..n - 1]) + [e];
    ReplayMore(m, s0, h + seg[..n - 1], e);
  }

  lemma WriteReceipted(receipts: Dict<WriteReceipt>, specs: seq<OutputSpec>, writes: History, a: nat)
    requires Totality.ReceiptsOf(receipts, specs, writes) && a < |specs|
    ensures |writes| == |specs| && writes[a].DidWrite? && writes[a].sink == specs[a] && writes[a].written.reply.Done?
  {
  }

  lemma AppliedWhenDone(env: Env, h: History, c: Contract, e: Event, m: Medium, s0: Store)
    requires Verdicts.Genuine(env.ports, h, c, e) && e.DidWrite? && e.written.reply.Done? && Faithful(env.ports, m, s0)
    ensures e.written.applied
  {
    hide Replay;
  }

  /** The settled store holds the second of two outputs with one destination, not the first. */
  lemma SecondStays(c: Contract, l: Leaves, params: ParamsReader, s0: Store, s: Store, a: nat, b: nat)
    requires Servable(c, l, params) && a < b < |c.outputs| && c.outputs[a].target.uri == c.outputs[b].target.uri
    ensures var spec := c.outputs[a];
      var backend := BackendOf(c, Telling(spec.target.role));
      var t, byRole := Settled(Totality.RAW, s0, c, backend, ""), ResultOn(Totality.RAW, s, c, backend, "");
      && spec.target.uri in t && t[spec.target.uri] == [0]
      && spec.target.role in byRole && byRole[spec.target.role] == [1]
  {
    hide Settled, ResultOn, BackendOf, Servable;
    var fill := Telling(c.outputs[a].target.role);
    OutputRolesDiffer(c, l, params, a);
    var last := SettledAt(s0, c, fill, "", b);
    FilledBy(s, c, fill, "", a);
  }

  /** A delivery cut short just after a write that the settled store does not hold. */
  lemma CutUnsettles(env: Env, h: History, raw: Bytes, c: Contract, s0: Store, backend: Backend, a: nat)
    returns (cuts: seq<nat>)
    requires Admit(env, raw).out == Ok(c) && FullPipeline(env, h, raw).result.Success?
    requires Faithful(env.ports, Totality.RAW, s0) && Deterministic(env.ports, backend, "")
    requires a < |c.outputs| && Distinct(OutputRoles(c))
    requires var t := Settled(Totality.RAW, s0, c, backend, "");
      var byRole := ResultOn(Totality.RAW, Replay(Totality.RAW, s0, h), c, backend, "");
      var uri, role := c.outputs[a].target.uri, c.outputs[a].target.role;
      Replay(Totality.RAW, s0, h) == t && uri in t && role in byRole && byRole[role] != t[uri]
    ensures !Stays(env, h, raw, cuts, c, Totality.RAW, s0, s0, backend, "")
  {
    hide Admit, FullPipeline, Process, Settled, Faithful, Deterministic, Replay, ResultOn, Deliveries, Distinct;
    Verdicts.RunIsProcessed(env, h, raw);
    WrittenUpTo(env, h, c, Totality.RAW, s0, backend, "", a);
    var n := |FullPipeline(env, h, raw).seg| - |c.outputs| + a;
    CutDelivery(env, h, raw, n);
    cuts := [n];
    var uri, t := c.outputs[a].target.uri, Settled(Totality.RAW, s0, c, backend, "");
    var left := Replay(Totality.RAW, s0, Deliveries(env, h, raw, cuts));
    assert uri in left && left[uri] != t[uri];
  }

  /** That delivery, for every contract two of whose outputs go to one place: cut short between the
      two writes, it leaves the first of them there. */
  lemma SharedDestinationUnsettles(c: Contract, l: Leaves, params: ParamsReader, raw: Bytes)
    returns (env: Env, first: seq<nat>, cuts: seq<nat>, s0: Store, backend: Backend)
    requires Servable(c, l, params) && Disjoint(c) && !Distinct(OutputUris(c))
    ensures first == [|FullPipeline(env, [], raw).seg|] && FullPipeline(env, [], raw).result.Success?
    ensures !Stays(env, Deliveries(env, [], raw, first), raw, cuts, c, Totality.RAW, s0, s0, backend, "")
  {
    hide *;
    var a, b := SharedPlace(c);
    var fill := Telling(c.outputs[a].target.role);
    s0, backend := EmptyInputs(c), BackendOf(c, fill);
    env := EnvOf(c, l, params, s0, backend, "");
    InputsStocked(c);
    first := TwoDeliveries(c, l, params, s0, fill, raw);
    var h := Deliveries(env, [], raw, first);
    OutputRolesDiffer(c, l, params, a);
    SecondStays(c, l, params, s0, Replay(Totality.RAW, s0, h), a, b);
    cuts := CutUnsettles(env, h, raw, c, s0, backend, a);
  }

  lemma SharedPlace(c: Contract) returns (a: nat, b: nat)
    requires !Distinct(OutputUris(c))
    ensures a < b < |c.outputs| && c.outputs[a].target.uri == c.outputs[b].target.uri
  {
    a, b :| 0 <= a < b < |c.outputs| && OutputUris(c)[a] == OutputUris(c)[b];
  }

  lemma InputsStocked(c: Contract)
    ensures Stocked(c, EmptyInputs(c))
  {
  }

  lemma OutputRolesDiffer(c: Contract, l: Leaves, params: ParamsReader, a: nat)
    requires Servable(c, l, params) && a < |c.outputs|
    ensures Distinct(OutputRoles(c))
    ensures forall k | a < k < |c.outputs| :: c.outputs[k].target.role != c.outputs[a].target.role
  {
    assert forall k | 0 <= k < |c.outputs| :: OutputRoles(c)[k] == c.outputs[k].target.role;
  }

  lemma CutDelivery(env: Env, h: History, raw: Bytes, n: nat)
    requires n <= |FullPipeline(env, h, raw).seg|
    ensures Deliveries(env, h, raw, [n]) == h + FullPipeline(env, h, raw).seg[..n]
  {
    hide FullPipeline;
    assert Deliveries(env, h, raw, [n][..0]) == h;
  }

  /** And a settled store stays settled for exactly the contracts that, besides, write no place twice. */
  lemma StaysExactly(c: Contract, l: Leaves, params: ParamsReader)
    requires Servable(c, l, params)
    ensures Disjoint(c) && Distinct(OutputUris(c)) <==>
      forall env: Env, h, raw, cuts, m, s0, s, backend, time :: Stays(env, h, raw, cuts, c, m, s0, s, backend, time)
  {
    hide Servable, Admit, Disjoint, Faithful, Deterministic, Settled, Replay, Distinct;
    if !Disjoint(c) {
      var env, cuts, s0, backend := OverlapUnsettles(c, l, params, []);
    } else if !Distinct(OutputUris(c)) {
      var env, first, cuts, s0, backend := SharedDestinationUnsettles(c, l, params, []);
    } else {
      forall env: Env, h, raw, cuts, m, s0, s, backend, time
        ensures Stays(env, h, raw, cuts, c, m, s0, s, backend, time)
      {
        if && Admit(env, raw).out == Ok(c) && Faithful(env.ports, m, s0) && Deterministic(env.ports, backend, time)
           && Replay(m, s0, h) == Settled(m, s, c, backend, time) {
          SettledStays(env, h, raw, cuts, c, m, s0, s, backend, time);
        }
      }
    }
  }

  // ---------------------------------------------------------------- and runs at the same time

  lemma {:induction false} DeliveriesConcat(env: Env, h: History, raw: Bytes, a: seq<nat>, b: seq<nat>)
    ensures Deliveries(env, Deliveries(env, h, raw, a), raw, b) == Deliveries(env, h, raw, a + b)
  {
    hide FullPipeline, Cut;
    if b == [] {
      assert a + b == a;
    } else {
      var init := b[..|b| - 1];
      DeliveriesConcat(env, h, raw, a, init);
      assert (a + b)[..|a + b| - 1] == a + init;
    }
  }

  lemma OverlapUnsettlesTogether(c: Contract, l: Leaves, params: ParamsReader, raw: Bytes)
    returns (g: Trace, runs: seq<Delivery>, s0: Store, backend: Backend, run: nat)
    requires Servable(c, l, params) && !Disjoint(c)
    ensures !SettlesTogether(g, runs, raw, c, Totality.RAW, s0, backend, "", run)
  {
    hide Servable, Admit, FullPipeline, Disjoint, Faithful, Deterministic, Settled, Replay, Deliveries, Stays;
    hide SettlesTogether;
    var env, cuts;
    env, cuts, s0, backend := OverlapUnsettles(c, l, params, raw);
    var h := Deliveries(env, [], raw, cuts);
    run := |cuts|;
    var more := [|FullPipeline(env, h, raw).seg|];
    OneMoreDelivery(env, h, raw);
    DeliveriesConcat(env, [], raw, cuts, more);
    var all := cuts + more;
    assert all[..run] == cuts && all[run] == more[0];
    SpoiledInSequence(env, raw, all, run, c, Totality.RAW, s0, backend, "");
    g, runs := Sequential(env, raw, all), DeliveriesOf(env, raw, all);
  }

  lemma SharedUnsettlesTogether(c: Contract, l: Leaves, params: ParamsReader, raw: Bytes)
    returns (g: Trace, runs: seq<Delivery>, s0: Store, backend: Backend)
    requires Servable(c, l, params) && Disjoint(c) && !Distinct(OutputUris(c))
    ensures !SettlesTogether(g, runs, raw, c, Totality.RAW, s0, backend, "", 0)
  {
    hide Servable, Admit, FullPipeline, Disjoint, Faithful, Deterministic, Settled, Replay, Distinct;
    hide SettlesTogether;
    var env, first, cuts;
    env, first, cuts, s0, backend := SharedDestinationUnsettles(c, l, params, raw);
    DeliveriesConcat(env, [], raw, first, cuts);
    var all := first + cuts;
    assert all[..0] == [] && Deliveries(env, [], raw, []) == [];
    hide Deliveries;
    SpoiledInSequence(env, raw, all, 0, c, Totality.RAW, s0, backend, "");
    g, runs := Sequential(env, raw, all), DeliveriesOf(env, raw, all);
  }

  /** Runs of one message at the same time settle the store for exactly the same contracts. */
  lemma TogetherExactly(c: Contract, l: Leaves, params: ParamsReader)
    requires Servable(c, l, params)
    ensures Disjoint(c) && Distinct(OutputUris(c)) <==>
      forall g, runs: seq<Delivery>, raw, m, s0, backend, time, run ::
        SettlesTogether(g, runs, raw, c, m, s0, backend, time, run)
  {
    hide Servable, SettlesTogether, Disjoint, Distinct;
    if !Disjoint(c) {
      var g, runs, s0, backend, run := OverlapUnsettlesTogether(c, l, params, []);
    } else if !Distinct(OutputUris(c)) {
      var g, runs, s0, backend := SharedUnsettlesTogether(c, l, params, []);
    } else {
      forall g, runs: seq<Delivery>, raw, m, s0, backend, time, run
        ensures SettlesTogether(g, runs, raw, c, m, s0, backend, time, run)
      {
        SettleTogether(g, runs, raw, c, m, s0, backend, time, run);
      }
    }
  }

  lemma SettleTogether(g: Trace, runs: seq<Delivery>, raw: Bytes, c: Contract, m: Medium, s0: Store, backend: Backend,
                       time: string, run: nat)
    requires Disjoint(c) && Distinct(OutputUris(c))
    ensures SettlesTogether(g, runs, raw, c, m, s0, backend, time, run)
  {
    hide FullPipeline, Interleaves, OneWorld, Of, Delivery.Calls, Replay, Settled, Disjoint, Distinct;
    if Interleaves(g, runs, raw, c) && OneWorld(g, m, s0, backend, time) && run < |runs| {
      if FullPipeline(runs[run].env, runs[run].start, raw).result.Success? && Of(g, run) == runs[run].Calls(raw) {
        InterleavingSettles(g, runs, raw, c, m, s0, backend, time, run);
      }
    }
  }

  /** Validation admits contracts of both kinds. */
  lemma BothKindsAreAdmitted(brackets: Urls.BracketRule)
    ensures var u, v := SampleUri("p-t"), SampleUri("p-t-a");
      var l := SampleLeaves(brackets);
      && Servable(SampleContract(u, u, v), l, OpaqueParams) && !Disjoint(SampleContract(u, u, v))
      && Servable(SampleContract(u, v, v), l, OpaqueParams) && !Distinct(OutputUris(SampleContract(u, v, v)))
  {
    SamplesAccepted(brackets);
    hide SampleUri, Urls.ParseUri, Servable;
    var u, v := SampleUri("p-t"), SampleUri("p-t-a");
    SampleServable(u, u, v, brackets);
    SampleServable(u, v, v, brackets);
    var inPlace, shared := SampleContract(u, u, v), SampleContract(u, v, v);
    assert InputUris(inPlace)[0] == u && OutputUris(inPlace)[0] == u;
    assert u in InputUris(inPlace) && u in OutputUris(inPlace);
    assert OutputUris(shared)[0] == OutputUris(shared)[1];
  }
}
