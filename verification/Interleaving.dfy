/** Several runs of one message at once: whatever the order of their calls, one complete run settles the
    store. */
module Interleaving {
  import opened Outcomes
  import opened Duplicates
  import opened Dicts
  import opened Json
  import opened Contracts
  import opened Readouts
  import opened Ports
  import opened Pipeline
  import opened Redelivery
  import EffectOrder
  import Givens
  import Verdicts

  /** A call, and the run that made it. */
  datatype Tagged = Tagged(run: nat, event: Event)

  type Trace = seq<Tagged>

  function Untag(g: Trace): (h: History)
    ensures |h| == |g| && forall k | 0 <= k < |h| :: h[k] == g[k].event
  {
    seq(|g|, k requires 0 <= k < |g| => g[k].event)
  }

  /** The calls one run made. */
  function Of(g: Trace, run: nat): History {
    if g == [] then []
    else Of(g[..|g| - 1], run) + if g[|g| - 1].run == run then [g[|g| - 1].event] else []
  }

  /** One delivery of the message: the deployment that runs it, and the calls its ports had seen before. */
  datatype Delivery = Delivery(env: Env, start: History) {
    function Calls(raw: Bytes): History { FullPipeline(env, start, raw).seg }
  }

  /** The trace interleaves runs of the message, each cut anywhere. What the ports answered a run may
      depend on the other runs: the ports of each run are arbitrary functions of its own calls, so they
      stand for whatever the others did between. */
  ghost predicate Interleaves(g: Trace, runs: seq<Delivery>, raw: Bytes, c: Contract) {
    && (forall k | 0 <= k < |g| :: g[k].run < |runs|)
    && forall run | 0 <= run < |runs| ::
         Admit(runs[run].env, raw).out == Ok(c) && Of(g, run) <= runs[run].Calls(raw)
  }

  /** What a call may have been answered when the store was `s`: a read what is stored, the backend and
      the clock always alike, and a write is acknowledged only when applied. */
  ghost predicate Fits(m: Medium, s: Store, backend: Backend, time: string, e: Event) {
    match e
    case DidRead(source, _, bytes) => bytes.Done? ==> Holding(m, s, source) && bytes.value == Content(m, s, source)
    case DidStamp(now) => now.Done? ==> now.value == time
    case DidCompute(inputs, parameters, context, r) => r.Done? ==> r.value == backend(inputs, parameters, context)
    case DidWrite(_, _, _, written) => written.reply.Done? ==> written.applied
    case _ => true
  }

  /** All calls of the trace were answered from one store, in the order of the trace. */
  ghost predicate OneWorld(g: Trace, m: Medium, s0: Store, backend: Backend, time: string) {
    forall k | 0 <= k < |g| :: Fits(m, Replay(m, s0, Untag(g[..k])), backend, time, g[k].event)
  }

  // ---------------------------------------------------------------- a trace and its runs

  lemma {:induction false} TaggedIsOf(g: Trace, k: nat)
    requires k < |g|
    ensures g[k].event in Of(g, g[k].run)
  {
    if k < |g| - 1 {
      assert g[..|g| - 1][k] == g[k];
      TaggedIsOf(g[..|g| - 1], k);
    }
  }

  lemma {:induction false} OfIsTagged(g: Trace, run: nat, p: nat) returns (k: nat)
    requires p < |Of(g, run)|
    ensures k < |g| && g[k].event == Of(g, run)[p]
  {
    var init := g[..|g| - 1];
    if p < |Of(init, run)| {
      k := OfIsTagged(init, run, p);
    } else {
      k := |g| - 1;
    }
  }

  /** A run of the trace is a run of the contract. */
  lemma OfIsProcessed(g: Trace, runs: seq<Delivery>, raw: Bytes, c: Contract, run: nat)
    requires Interleaves(g, runs, raw, c) && run < |runs|
    ensures Of(g, run) <= Process(runs[run].env, runs[run].start, c).seg
  {
    hide Admit, Process, FullPipeline, Of;
    Verdicts.RunIsProcessed(runs[run].env, runs[run].start, raw);
  }

  // ---------------------------------------------------------------- every write stores the same

  lemma WritesInTraceAreDeclared(g: Trace, runs: seq<Delivery>, raw: Bytes, c: Contract)
    requires Interleaves(g, runs, raw, c)
    ensures forall e | e in Untag(g) && e.DidWrite? :: e.sink in c.outputs
  {
    hide Process, Of, Interleaves;
    forall e | e in Untag(g) && e.DidWrite? ensures e.sink in c.outputs {
      var k :| 0 <= k < |g| && g[k].event == e;
      RunOfCall(g, runs, raw, c, k);
      OfIsProcessed(g, runs, raw, c, g[k].run);
      TaggedIsOf(g, k);
      WritesAreDeclared(runs[g[k].run].env, runs[g[k].run].start, c);
    }
  }

  lemma RunOfCall(g: Trace, runs: seq<Delivery>, raw: Bytes, c: Contract, k: nat)
    requires Interleaves(g, runs, raw, c) && k < |g|
    ensures g[k].run < |runs|
  {
  }

  /** So no run changes what another reads. */
  lemma SourcesStay(g: Trace, runs: seq<Delivery>, raw: Bytes, c: Contract, m: Medium, s0: Store, k: nat)
    requires Interleaves(g, runs, raw, c) && Disjoint(c) && k <= |g|
    ensures Sources(m, Replay(m, s0, Untag(g[..k])), c.inputs) == Sources(m, s0, c.inputs)
  {
    hide Interleaves, Disjoint, Replay, AgreeOutside, Sources;
    WritesInTraceAreDeclared(g, runs, raw, c);
    var h := Untag(g[..k]);
    forall e | e in h ensures e in Untag(g) {
      var i :| 0 <= i < |h| && h[i] == e;
      assert Untag(g)[i] == e;
    }
    DestinationsOf(c);
    WritesOnlyAt(m, s0, h, c.outputs, OutputUris(c));
    SameSources(m, Replay(m, s0, h), s0, c);
  }

  /** A call of a run, at its place in the trace. */
  lemma FitsInRun(g: Trace, m: Medium, s0: Store, backend: Backend, time: string, run: nat, p: nat) returns (k: nat)
    requires OneWorld(g, m, s0, backend, time) && p < |Of(g, run)|
    ensures k < |g| && Fits(m, Replay(m, s0, Untag(g[..k])), backend, time, Of(g, run)[p])
  {
    hide Of, Replay, Fits;
    k := OfIsTagged(g, run, p);
  }

  lemma ReadInTrace(g: Trace, runs: seq<Delivery>, raw: Bytes, c: Contract, m: Medium, s0: Store, backend: Backend,
                    time: string, run: nat, p: nat, i: nat)
    requires Interleaves(g, runs, raw, c) && Disjoint(c) && OneWorld(g, m, s0, backend, time)
    requires p < |Of(g, run)| && i < |c.inputs|
    requires var e := Of(g, run)[p]; e.DidRead? && e.source == c.inputs[i] && e.bytes.Done?
    ensures Of(g, run)[p].bytes.value == Content(m, s0, c.inputs[i])
  {
    hide Interleaves, OneWorld, Disjoint, Replay, Of, Content;
    var k := FitsInRun(g, m, s0, backend, time, run, p);
    SourcesStay(g, runs, raw, c, m, s0, k);
    var s := Replay(m, s0, Untag(g[..k]));
    assert Sources(m, s, c.inputs)[i] == Sources(m, s0, c.inputs)[i];
  }

  /** Every backend answer of the trace is the answer on the initial store. */
  lemma ComputedInTrace(g: Trace, runs: seq<Delivery>, raw: Bytes, c: Contract, m: Medium, s0: Store, backend: Backend,
                        time: string, run: nat, j: nat)
    requires Interleaves(g, runs, raw, c) && Disjoint(c) && OneWorld(g, m, s0, backend, time)
    requires run < |runs| && j < |Of(g, run)| && Of(g, run)[j].DidCompute? && Of(g, run)[j].result.Done?
    ensures Of(g, run)[j].result.value.byRole == ResultOn(m, s0, c, backend, time)
  {
    hide Interleaves, OneWorld, Disjoint, Replay, Of, Process, Content, DictOf, ContextOf;
    var own, seg := Of(g, run), Process(runs[run].env, runs[run].start, c).seg;
    OfIsProcessed(g, runs, raw, c, run);
    assert own[j] == seg[j];
    Givens.BackendGetsWhatWasRead(runs[run].env, runs[run].start, c, j);
    var first := j - 1 - |c.inputs|;
    var got := seg[first..j - 1];
    forall i | 0 <= i < |c.inputs| ensures Givens.ReadPairs(got, c.inputs)[i] == Sources(m, s0, c.inputs)[i] {
      assert own[first + i] == seg[first + i] == got[i];
      ReadInTrace(g, runs, raw, c, m, s0, backend, time, run, first + i, i);
    }
    assert Givens.ReadPairs(got, c.inputs) == Sources(m, s0, c.inputs);
    assert own[j - 1] == seg[j - 1];
    var at := FitsInRun(g, m, s0, backend, time, run, j - 1);
    var k := FitsInRun(g, m, s0, backend, time, run, j);
  }

  /** Every write of the trace stores what the backend makes of the initial store. */
  lemma WritesInTraceAlike(g: Trace, runs: seq<Delivery>, raw: Bytes, c: Contract, m: Medium, s0: Store,
                           backend: Backend, time: string)
    requires Interleaves(g, runs, raw, c) && Disjoint(c) && OneWorld(g, m, s0, backend, time)
    ensures forall e | e in Untag(g) && e.DidWrite? ::
              e.sink in c.outputs && EffectOrder.WritesOf(e, ResultOn(m, s0, c, backend, time))
  {
    hide Interleaves, OneWorld, Disjoint, Of, Process, ResultOn, EffectOrder.WritesOf;
    forall e | e in Untag(g) && e.DidWrite?
      ensures e.sink in c.outputs && EffectOrder.WritesOf(e, ResultOn(m, s0, c, backend, time))
    {
      var k :| 0 <= k < |g| && g[k].event == e;
      RunOfCall(g, runs, raw, c, k);
      TaggedIsOf(g, k);
      WriteInTraceAlike(g, runs, raw, c, m, s0, backend, time, g[k].run, e);
    }
  }

  lemma WriteInTraceAlike(g: Trace, runs: seq<Delivery>, raw: Bytes, c: Contract, m: Medium, s0: Store,
                          backend: Backend, time: string, run: nat, e: Event)
    requires Interleaves(g, runs, raw, c) && Disjoint(c) && OneWorld(g, m, s0, backend, time)
    requires run < |runs| && e in Of(g, run) && e.DidWrite?
    ensures e.sink in c.outputs && EffectOrder.WritesOf(e, ResultOn(m, s0, c, backend, time))
  {
    hide Interleaves, OneWorld, Disjoint, Of, Process, ResultOn, EffectOrder.WritesOf, Gate;
    var own, seg := Of(g, run), Process(runs[run].env, runs[run].start, c).seg;
    OfIsProcessed(g, runs, raw, c, run);
    var p :| 0 <= p < |own| && own[p] == e;
    assert seg[p] == e;
    EffectOrder.WritesAreGated(runs[run].env, runs[run].start, c, p);
    var j :| 0 <= j < p && EffectOrder.Gated(runs[run].env, c, seg[j])
             && EffectOrder.WritesOf(seg[p], seg[j].result.value.byRole) && seg[p].sink in c.outputs;
    assert own[j] == seg[j];
    ComputedInTrace(g, runs, raw, c, m, s0, backend, time, run, j);
  }

  // ---------------------------------------------------------------- one complete run settles the store

  /** Writes that all store the same leave it at the destinations they reach. */
  lemma {:induction false} WriteSticks(m: Medium, s0: Store, h: History, c: Contract, byRole: map<string, Bytes>,
                                       k: nat, e: Event)
    requires forall w | w in h && w.DidWrite? :: w.sink in c.outputs && EffectOrder.WritesOf(w, byRole)
    requires Distinct(OutputUris(c)) && k < |c.outputs|
    requires e in h && e.DidWrite? && e.written.applied && e.sink == c.outputs[k]
    ensures var s, spec := Replay(m, s0, h), c.outputs[k];
      && spec.target.role in byRole
      && spec.target.uri in s && s[spec.target.uri] == m.pack(spec, byRole[spec.target.role])
  {
    var init, last := h[..|h| - 1], h[|h| - 1];
    assert last in h && forall w :: w in init ==> w in h;
    if last.DidWrite? && last.written.applied && last.sink.target.uri == c.outputs[k].target.uri {
      var i :| 0 <= i < |c.outputs| && c.outputs[i] == last.sink;
      assert OutputUris(c)[i] == OutputUris(c)[k];
      assert i == k;
    } else {
      assert e in init;
      WriteSticks(m, s0, init, c, byRole, k, e);
    }
  }

  /** A complete run has written every output. */
  lemma WroteEach(env: Env, h: History, c: Contract, k: nat) returns (p: nat)
    requires Process(env, h, c).out.Ok? && k < |c.outputs|
    ensures p < |Process(env, h, c).seg|
    ensures var e := Process(env, h, c).seg[p]; e.DidWrite? && e.sink == c.outputs[k] && e.Succeeded()
  {
    hide Process;
    EffectOrder.NotificationDecides(env, h, c);
    var last := |Process(env, h, c).seg| - 1;
    EffectOrder.NotifyComesLast(env, h, c, last);
    p := last - |c.outputs| + k;
    assert EffectOrder.WroteAt(Process(env, h, c).seg, p, c.outputs[k]);
  }

  lemma SettledInTrace(g: Trace, runs: seq<Delivery>, raw: Bytes, c: Contract, m: Medium, s0: Store, backend: Backend,
                       time: string, run: nat, k: nat)
    requires Interleaves(g, runs, raw, c) && Disjoint(c) && OneWorld(g, m, s0, backend, time)
    requires Distinct(OutputUris(c)) && k < |c.outputs|
    requires run < |runs| && Process(runs[run].env, runs[run].start, c).out.Ok?
             && Of(g, run) == Process(runs[run].env, runs[run].start, c).seg
    ensures var s, t, uri := Replay(m, s0, Untag(g)), Settled(m, s0, c, backend, time), c.outputs[k].target.uri;
      uri in s && uri in t && s[uri] == t[uri]
  {
    hide Interleaves, OneWorld, Disjoint, Of, Process, ResultOn, EffectOrder.WritesOf, Replay, Overwrite, Distinct;
    var byRole := ResultOn(m, s0, c, backend, time);
    WritesInTraceAlike(g, runs, raw, c, m, s0, backend, time);
    var p := WroteEach(runs[run].env, runs[run].start, c, k);
    var e := Of(g, run)[p];
    var i := OfIsTagged(g, run, p);
    var at := FitsInRun(g, m, s0, backend, time, run, p);
    assert Untag(g)[i] == e && e in Untag(g);
    WriteSticks(m, s0, Untag(g), c, byRole, k, e);
    OthersElsewhere(c, k);
    OverwriteHolds(m, s0, c.outputs, byRole, 0, k);
  }

  lemma OthersElsewhere(c: Contract, k: nat)
    requires Distinct(OutputUris(c)) && k < |c.outputs|
    ensures forall b | k < b < |c.outputs| :: c.outputs[b].target.uri != c.outputs[k].target.uri
  {
    assert forall b | 0 <= b < |c.outputs| :: OutputUris(c)[b] == c.outputs[b].target.uri;
  }

  lemma OnDestinations(c: Contract, s: Store, t: Store, s0: Store)
    requires AgreeOutside(s, s0, OutputUris(c)) && AgreeOutside(t, s0, OutputUris(c))
    requires forall k | 0 <= k < |c.outputs| ::
               var uri := c.outputs[k].target.uri; uri in s && uri in t && s[uri] == t[uri]
    ensures s == t
  {
    forall u ensures (u in s <==> u in t) && (u in s ==> s[u] == t[u]) {
      if u in OutputUris(c) {
        var k :| 0 <= k < |c.outputs| && OutputUris(c)[k] == u;
        assert c.outputs[k].target.uri == u;
      }
    }
  }

  /** Runs of one message at the same time do no harm: in whatever order their calls come, failed, cut
      short or complete, once one run among them is complete the store is what a single run leaves. */
  lemma InterleavingSettles(g: Trace, runs: seq<Delivery>, raw: Bytes, c: Contract, m: Medium, s0: Store,
                            backend: Backend, time: string, run: nat)
    requires Interleaves(g, runs, raw, c) && OneWorld(g, m, s0, backend, time)
    requires Disjoint(c) && Distinct(OutputUris(c))
    requires run < |runs| && FullPipeline(runs[run].env, runs[run].start, raw).result.Success?
    requires Of(g, run) == runs[run].Calls(raw)
    ensures Replay(m, s0, Untag(g)) == Settled(m, s0, c, backend, time)
  {
    hide Interleaves, OneWorld, Disjoint, Of, FullPipeline, Process, Replay, Settled, Distinct, AgreeOutside,
         Delivery.Calls;
    CompleteRun(g, runs, raw, c, run);
    WritesInTraceAreDeclared(g, runs, raw, c);
    DestinationsOf(c);
    WritesOnlyAt(m, s0, Untag(g), c.outputs, OutputUris(c));
    SettledAgrees(m, s0, c, backend, time);
    forall k | 0 <= k < |c.outputs|
      ensures var s, t, uri := Replay(m, s0, Untag(g)), Settled(m, s0, c, backend, time), c.outputs[k].target.uri;
        uri in s && uri in t && s[uri] == t[uri]
    {
      SettledInTrace(g, runs, raw, c, m, s0, backend, time, run, k);
    }
    OnDestinations(c, Replay(m, s0, Untag(g)), Settled(m, s0, c, backend, time), s0);
  }

  lemma CompleteRun(g: Trace, runs: seq<Delivery>, raw: Bytes, c: Contract, run: nat)
    requires Interleaves(g, runs, raw, c) && run < |runs|
             && FullPipeline(runs[run].env, runs[run].start, raw).result.Success?
    requires Of(g, run) == runs[run].Calls(raw)
    ensures Process(runs[run].env, runs[run].start, c).out.Ok?
            && Of(g, run) == Process(runs[run].env, runs[run].start, c).seg
  {
    hide Admit, FullPipeline, Process, Of;
    Verdicts.RunIsProcessed(runs[run].env, runs[run].start, raw);
  }

  // ---------------------------------------------------------------- deliveries one after the other

  function Tag(run: nat, h: History): (g: Trace)
    ensures |g| == |h| && forall k | 0 <= k < |g| :: g[k] == Tagged(run, h[k])
  {
    seq(|h|, k requires 0 <= k < |h| => Tagged(run, h[k]))
  }

  function Sequential(env: Env, raw: Bytes, cuts: seq<nat>): Trace {
    if cuts == [] then []
    else
      var init := cuts[..|cuts| - 1];
      var seg := FullPipeline(env, Deliveries(env, [], raw, init), raw).seg;
      Sequential(env, raw, init) + Tag(|init|, Cut(seg, cuts[|init|]))
  }

  function DeliveriesOf(env: Env, raw: Bytes, cuts: seq<nat>): (runs: seq<Delivery>)
    ensures |runs| == |cuts|
    ensures forall r | 0 <= r < |runs| :: runs[r] == Delivery(env, Deliveries(env, [], raw, cuts[..r]))
  {
    seq(|cuts|, r requires 0 <= r < |cuts| => Delivery(env, Deliveries(env, [], raw, cuts[..r])))
  }

  lemma {:induction false} OfBoth(g: Trace, run: nat, h: History, other: nat)
    ensures Of(g + Tag(run, h), other) == Of(g, other) + if other == run then h else []
  {
    hide Of;
    if h == [] {
      assert g + Tag(run, h) == g;
    } else {
      var init, last := h[..|h| - 1], h[|h| - 1];
      OfBoth(g, run, init, other);
      assert g + Tag(run, h) == (g + Tag(run, init)) + [Tagged(run, last)];
      hide Tag;
      OfMore(g + Tag(run, init), Tagged(run, last), other);
      assert h == init + [last];
    }
  }

  lemma OfMore(g: Trace, t: Tagged, run: nat)
    ensures Of(g + [t], run) == Of(g, run) + if t.run == run then [t.event] else []
  {
    assert (g + [t])[..|g|] == g;
  }

  lemma {:induction false} OfNone(g: Trace, run: nat)
    requires forall k | 0 <= k < |g| :: g[k].run != run
    ensures Of(g, run) == []
  {
    if g != [] { OfNone(g[..|g| - 1], run); }
  }

  lemma UntagBoth(g: Trace, run: nat, h: History)
    ensures Untag(g + Tag(run, h)) == Untag(g) + h
  {
  }

  /** Deliveries one after the other are such a trace, of a faithful store and a deterministic backend;
      so what is proved of interleaved runs holds of repeated and interrupted ones. */
  lemma {:induction false} DeliveriesInterleave(env: Env, raw: Bytes, cuts: seq<nat>, c: Contract, m: Medium, s0: Store,
                                                backend: Backend, time: string)
    requires Admit(env, raw).out == Ok(c) && Faithful(env.ports, m, s0) && Deterministic(env.ports, backend, time)
    ensures var g := Sequential(env, raw, cuts);
      && Untag(g) == Deliveries(env, [], raw, cuts)
      && Interleaves(g, DeliveriesOf(env, raw, cuts), raw, c) && OneWorld(g, m, s0, backend, time)
  {
    hide Admit, FullPipeline, Process, Faithful, Deterministic, Of, Replay, Fits, OneWorld;
    if cuts == [] {
      NothingHappened(m, s0, backend, time);
    } else {
      var init := cuts[..|cuts| - 1];
      var g, before := Sequential(env, raw, init), Deliveries(env, [], raw, init);
      var own := Cut(FullPipeline(env, before, raw).seg, cuts[|init|]);
      DeliveriesInterleave(env, raw, init, c, m, s0, backend, time);
      UntagBoth(g, |init|, own);
      OneMoreRun(env, raw, cuts, c, g, own);
      OwnCallsFit(env, before, raw, c, m, s0, backend, time);
      var seg := FullPipeline(env, before, raw).seg;
      forall i | 0 <= i < |own| ensures Fits(m, Replay(m, s0, Untag(g) + own[..i]), backend, time, own[i]) {
        assert own[..i] == seg[..i] && own[i] == seg[i];
      }
      OneWorldMore(g, |init|, own, m, s0, backend, time);
    }
  }

  lemma NothingHappened(m: Medium, s0: Store, backend: Backend, time: string)
    ensures OneWorld([], m, s0, backend, time)
  {
  }

  lemma OneMoreRun(env: Env, raw: Bytes, cuts: seq<nat>, c: Contract, g: Trace, own: History)
    requires cuts != [] && Admit(env, raw).out == Ok(c)
    requires Interleaves(g, DeliveriesOf(env, raw, cuts[..|cuts| - 1]), raw, c)
    requires own <= FullPipeline(env, Deliveries(env, [], raw, cuts[..|cuts| - 1]), raw).seg
    ensures Interleaves(g + Tag(|cuts| - 1, own), DeliveriesOf(env, raw, cuts), raw, c)
  {
    hide Admit, FullPipeline, Of;
    var n := |cuts| - 1;
    var before, runs, all := DeliveriesOf(env, raw, cuts[..n]), DeliveriesOf(env, raw, cuts), g + Tag(n, own);
    forall run | 0 <= run < |runs| ensures Of(all, run) <= runs[run].Calls(raw) {
      OfBoth(g, n, own, run);
      if run < n {
        assert cuts[..n][..run] == cuts[..run];
        assert runs[run] == before[run] && Of(all, run) == Of(g, run);
      } else {
        OfNone(g, run);
        assert Of(all, run) == own;
      }
    }
  }

  /** The calls of a run fit the store they meet. */
  lemma OwnCallsFit(env: Env, h: History, raw: Bytes, c: Contract, m: Medium, s0: Store, backend: Backend, time: string)
    requires Admit(env, raw).out == Ok(c) && Faithful(env.ports, m, s0) && Deterministic(env.ports, backend, time)
    ensures var seg := FullPipeline(env, h, raw).seg;
      forall i | 0 <= i < |seg| :: Fits(m, Replay(m, s0, h + seg[..i]), backend, time, seg[i])
  {
    hide Admit, FullPipeline, Process, Faithful, Deterministic, Replay, Fits, Verdicts.Answered, Verdicts.Concerns;
    Verdicts.RunIsProcessed(env, h, raw);
    Verdicts.RepliesAreThePorts(env, h, c);
    var seg := FullPipeline(env, h, raw).seg;
    forall i | 0 <= i < |seg| ensures Fits(m, Replay(m, s0, h + seg[..i]), backend, time, seg[i]) {
      assert Verdicts.Genuine(env.ports, h + seg[..i], c, seg[i]);
      AnswersFit(env.ports, h + seg[..i], m, s0, backend, time, seg[i]);
    }
  }

  lemma AnswersFit(p: Ports, h: History, m: Medium, s0: Store, backend: Backend, time: string, e: Event)
    requires Verdicts.Answered(p, h, e) && Faithful(p, m, s0) && Deterministic(p, backend, time)
    ensures Fits(m, Replay(m, s0, h), backend, time, e)
  {
    hide Replay, Holding, Content;
  }

  lemma OneWorldMore(g: Trace, run: nat, own: History, m: Medium, s0: Store, backend: Backend, time: string)
    requires OneWorld(g, m, s0, backend, time)
    requires forall i | 0 <= i < |own| :: Fits(m, Replay(m, s0, Untag(g) + own[..i]), backend, time, own[i])
    ensures OneWorld(g + Tag(run, own), m, s0, backend, time)
  {
    hide Fits, Replay;
    var all := g + Tag(run, own);
    forall k | 0 <= k < |all| ensures Fits(m, Replay(m, s0, Untag(all[..k])), backend, time, all[k].event) {
      if k < |g| {
        assert all[..k] == g[..k];
      } else {
        assert Untag(all[..k]) == Untag(g) + own[..k - |g|];
      }
    }
  }

  /** The calls of one of the deliveries. */
  lemma {:induction false} OfSequential(env: Env, raw: Bytes, cuts: seq<nat>, r: nat)
    requires r < |cuts|
    ensures Of(Sequential(env, raw, cuts), r) ==
            Cut(FullPipeline(env, Deliveries(env, [], raw, cuts[..r]), raw).seg, cuts[r])
  {
    hide FullPipeline, Of, Cut, Deliveries;
    var n := |cuts| - 1;
    var init := cuts[..n];
    var own := Cut(FullPipeline(env, Deliveries(env, [], raw, init), raw).seg, cuts[n]);
    OfBoth(Sequential(env, raw, init), n, own, r);
    if r < n {
      assert init[..r] == cuts[..r];
      OfSequential(env, raw, init, r);
    } else {
      RunsBefore(env, raw, init);
      OfNone(Sequential(env, raw, init), n);
    }
  }

  lemma {:induction false} RunsBefore(env: Env, raw: Bytes, cuts: seq<nat>)
    ensures forall k | 0 <= k < |Sequential(env, raw, cuts)| :: Sequential(env, raw, cuts)[k].run < |cuts|
  {
    hide FullPipeline, Cut, Deliveries;
    if cuts != [] { RunsBefore(env, raw, cuts[..|cuts| - 1]); }
  }

  /** A complete run among interleaved ones leaves what a single run leaves. */
  ghost predicate SettlesTogether(g: Trace, runs: seq<Delivery>, raw: Bytes, c: Contract, m: Medium, s0: Store,
                                  backend: Backend, time: string, run: nat) {
    && Interleaves(g, runs, raw, c) && OneWorld(g, m, s0, backend, time) && run < |runs|
    && FullPipeline(runs[run].env, runs[run].start, raw).result.Success? && Of(g, run) == runs[run].Calls(raw) ==>
    Replay(m, s0, Untag(g)) == Settled(m, s0, c, backend, time)
  }

  /** What repeated deliveries spoil, interleaved ones do. */
  lemma SpoiledInSequence(env: Env, raw: Bytes, cuts: seq<nat>, r: nat, c: Contract, m: Medium, s0: Store,
                          backend: Backend, time: string)
    requires Admit(env, raw).out == Ok(c) && Faithful(env.ports, m, s0) && Deterministic(env.ports, backend, time)
    requires r < |cuts| && FullPipeline(env, Deliveries(env, [], raw, cuts[..r]), raw).result.Success?
    requires cuts[r] == |FullPipeline(env, Deliveries(env, [], raw, cuts[..r]), raw).seg|
    requires Replay(m, s0, Deliveries(env, [], raw, cuts)) != Settled(m, s0, c, backend, time)
    ensures !SettlesTogether(Sequential(env, raw, cuts), DeliveriesOf(env, raw, cuts), raw, c, m, s0, backend, time, r)
  {
    hide Admit, FullPipeline, Faithful, Deterministic, Deliveries, Replay, Settled, Interleaves, OneWorld, Of,
         Sequential;
    DeliveriesInterleave(env, raw, cuts, c, m, s0, backend, time);
    OfSequential(env, raw, cuts, r);
  }
}
