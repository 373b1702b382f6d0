/** The storage stack as the storage port of a run. */
module Stacked {
  import opened Outcomes
  import opened Json
  import opened Contracts
  import opened Ports
  import opened Pipeline
  import opened Redelivery
  import opened Storage
  import Verdicts

  /** What lies between payloads and stored bytes is the compression a specification names. */
  function Compressing(codecs: Codecs): Medium {
    Medium((spec, payload) => Packed(codecs, spec, payload), (spec, bytes) => Unpacked(codecs, spec, bytes))
  }

  function Packed(codecs: Codecs, spec: OutputSpec, payload: Bytes): Bytes {
    match codecs.Compress(spec.target.compression, payload) case Some(b) => b case None => payload
  }

  function Unpacked(codecs: Codecs, spec: InputSpec, bytes: Bytes): Option<Bytes> {
    match codecs.Decompress(spec.target.compression, bytes) case Done(b) => Some(b) case _ => None
  }

  /** The plain map after the writes of a history. */
  function Recorded(shape: Shape, m: PlainMap, h: History): PlainMap {
    if h == [] then m else Record(shape, Recorded(shape, m, h[..|h| - 1]), h[|h| - 1])
  }

  /** A payload of an unknown compression, which the stack never stores, counts as it is. */
  function Record(shape: Shape, m: PlainMap, e: Event): PlainMap {
    if e.DidWrite? && e.written.applied then
      var compression := if shape.codecs.Compress(e.sink.target.compression, e.payload).Some?
                         then e.sink.target.compression else "none";
      m[e.sink.target.uri := Entry(e.payload, compression)]
    else m
  }

  /** The bytes a plain map is stored as. */
  function StoredBytes(shape: Shape, m: PlainMap): Store { map uri | uri in m :: shape.StoredAs(m[uri]) }

  function StackWrite(shape: Shape, sink: OutputSpec, payload: Bytes): WriteReply {
    var r := shape.Write(sink, payload);
    WriteReply(r, r.Done?)
  }

  /** The storage port is a stack that began as the plain map `m`: it answers as the composite store
      does, by the writes before. */
  ghost predicate OverStack(p: Ports, shape: Shape, m: PlainMap) {
    && (forall h, source, creds :: p.read(h, source, creds) == shape.Read(Recorded(shape, m, h), source))
    && (forall h, sink, payload, creds :: p.write(h, sink, payload, creds) == StackWrite(shape, sink, payload))
  }

  /** What is recorded of a write the stack answered is what the write made of the plain map. */
  lemma RecordsTheWrite(shape: Shape, m: PlainMap, e: Event)
    requires e.DidWrite? ==> e.written == StackWrite(shape, e.sink, e.payload)
    ensures Record(shape, m, e) ==
            if e.DidWrite? then MapAfter(shape, m, WriteOp(e.sink, e.payload)) else m
  {
  }

  /** The stored bytes follow the plain map through every history. */
  lemma {:induction false} BytesFollow(shape: Shape, m: PlainMap, h: History)
    requires shape.Packable(m)
    ensures shape.Packable(Recorded(shape, m, h))
    ensures Replay(Compressing(shape.codecs), StoredBytes(shape, m), h) == StoredBytes(shape, Recorded(shape, m, h))
  {
    if h != [] {
      var init, e := h[..|h| - 1], h[|h| - 1];
      BytesFollow(shape, m, init);
      StoresTheWrite(shape, Recorded(shape, m, init), e);
    }
  }

  lemma StoresTheWrite(shape: Shape, m: PlainMap, e: Event)
    requires shape.Packable(m)
    ensures shape.Packable(Record(shape, m, e))
    ensures Apply(Compressing(shape.codecs), StoredBytes(shape, m), e) == StoredBytes(shape, Record(shape, m, e))
  {
    if e.DidWrite? && e.written.applied {
      var entry := Record(shape, m, e)[e.sink.target.uri];
      assert shape.StoredAs(entry) == Packed(shape.codecs, e.sink, e.payload);
    }
  }

  lemma ReadsTheContent(shape: Shape, m: PlainMap, source: InputSpec)
    requires shape.Packable(m) && shape.codecs.Inverse() && shape.Read(m, source).Done?
    ensures var s := StoredBytes(shape, m);
      && Holding(Compressing(shape.codecs), s, source)
      && shape.Read(m, source).value == Content(Compressing(shape.codecs), s, source)
  {
    var e := m[source.target.uri];
    if source.target.compression == e.compression {
      shape.codecs.Restores(e.compression, e.payload);
    }
  }

  /** A port over the stack reads what was written and has stored what it acknowledges. */
  lemma StackIsFaithful(p: Ports, shape: Shape, m: PlainMap)
    requires OverStack(p, shape, m) && shape.Packable(m) && shape.codecs.Inverse()
    ensures Faithful(p, Compressing(shape.codecs), StoredBytes(shape, m))
  {
    hide Recorded, Replay, StoredBytes, Holding, Content, Compressing, Shape.Packable;
    var medium, s := Compressing(shape.codecs), StoredBytes(shape, m);
    forall h, source, creds | p.read(h, source, creds).Done?
      ensures Holding(medium, Replay(medium, s, h), source)
      ensures p.read(h, source, creds).value == Content(medium, Replay(medium, s, h), source)
    {
      BytesFollow(shape, m, h);
      ReadsTheContent(shape, Recorded(shape, m, h), source);
    }
  }

  /** So redelivery converges over the composed store. */
  lemma RedeliveryConvergesOnStack(env: Env, raw: Bytes, cuts: seq<nat>, c: Contract, shape: Shape, m: PlainMap,
                                   backend: Backend, time: string)
    requires Admit(env, raw).out == Ok(c) && Disjoint(c)
    requires OverStack(env.ports, shape, m) && shape.Packable(m) && shape.codecs.Inverse()
    requires Deterministic(env.ports, backend, time)
    requires FullPipeline(env, Deliveries(env, [], raw, cuts), raw).result.Success?
    ensures var h, medium := Deliveries(env, [], raw, cuts), Compressing(shape.codecs);
      StoredBytes(shape, Recorded(shape, m, h + FullPipeline(env, h, raw).seg)) ==
      Settled(medium, StoredBytes(shape, m), c, backend, time)
  {
    hide *;
    StackIsFaithful(env.ports, shape, m);
    var h, medium := Deliveries(env, [], raw, cuts), Compressing(shape.codecs);
    RedeliveryConverges(env, raw, cuts, c, medium, StoredBytes(shape, m), backend, time);
    BytesFollow(shape, m, h + FullPipeline(env, h, raw).seg);
  }

  // ---------------------------------------------------------------- the calls as operations on the store

  /** The storage operations among the calls, and the answers recorded for them. */
  function Ops(h: History): seq<Op> {
    if h == [] then [] else Ops(h[..|h| - 1]) + OpOf(h[|h| - 1])
  }

  function OpOf(e: Event): seq<Op> {
    match e
    case DidRead(source, _, _) => [ReadOp(source)]
    case DidWrite(sink, payload, _, _) => [WriteOp(sink, payload)]
    case _ => []
  }

  function Replies(h: History): seq<Answer> {
    if h == [] then [] else Replies(h[..|h| - 1]) + ReplyOf(h[|h| - 1])
  }

  function ReplyOf(e: Event): seq<Answer> {
    match e
    case DidRead(_, _, bytes) => [Loaded(bytes)]
    case DidWrite(_, _, _, written) => [Saved(written.reply)]
    case _ => []
  }

  /** Over the stack, the calls of a history are answered as one sequence of operations on the composite
      store is, and the plain map it leaves is the recorded one. */
  lemma {:induction false} CallsAreOperations(p: Ports, shape: Shape, m: PlainMap, h: History)
    requires OverStack(p, shape, m) && forall i | 0 <= i < |h| :: Verdicts.Answered(p, h[..i], h[i])
    ensures AnswersOn(shape, m, Ops(h)) == Replies(h) && MapAfterAll(shape, m, Ops(h)) == Recorded(shape, m, h)
  {
    hide OverStack, Verdicts.Answered, Record, MapAfter, AnswerOn, OpOf, ReplyOf;
    if h != [] {
      var init, e := h[..|h| - 1], h[|h| - 1];
      forall i | 0 <= i < |init| ensures Verdicts.Answered(p, init[..i], init[i]) {
        assert init[..i] == h[..i] && init[i] == h[i];
      }
      CallsAreOperations(p, shape, m, init);
      assert Verdicts.Answered(p, init, e);
      OneCallMore(p, shape, m, init, e);
    }
  }

  lemma OneCallMore(p: Ports, shape: Shape, m: PlainMap, init: History, e: Event)
    requires OverStack(p, shape, m) && Verdicts.Answered(p, init, e)
    requires AnswersOn(shape, m, Ops(init)) == Replies(init)
    requires MapAfterAll(shape, m, Ops(init)) == Recorded(shape, m, init)
    ensures AnswersOn(shape, m, Ops(init) + OpOf(e)) == Replies(init) + ReplyOf(e)
    ensures MapAfterAll(shape, m, Ops(init) + OpOf(e)) == Record(shape, Recorded(shape, m, init), e)
  {
    hide Recorded, Ops, Replies, AnswersOn, MapAfterAll, Shape.Read, Shape.Write, Shape.After;
    CallAnswered(p, shape, m, init, e);
    if OpOf(e) == [] {
      assert Ops(init) + OpOf(e) == Ops(init) && Replies(init) + ReplyOf(e) == Replies(init);
    } else {
      OneMoreOp(shape, m, Ops(init), OpOf(e)[0]);
    }
  }

  lemma CallAnswered(p: Ports, shape: Shape, m: PlainMap, init: History, e: Event)
    requires OverStack(p, shape, m) && Verdicts.Answered(p, init, e)
    ensures var now := Recorded(shape, m, init);
      && Record(shape, now, e) == (if OpOf(e) == [] then now else MapAfter(shape, now, OpOf(e)[0]))
      && ReplyOf(e) == (if OpOf(e) == [] then [] else [AnswerOn(shape, now, OpOf(e)[0])])
  {
    hide Recorded, Shape.Read, Shape.Write, Record, Shape.After;
    RecordsTheWrite(shape, Recorded(shape, m, init), e);
    if !e.DidWrite? { NothingRecorded(shape, Recorded(shape, m, init), e); }
  }

  lemma NothingRecorded(shape: Shape, m: PlainMap, e: Event)
    requires !e.DidWrite?
    ensures Record(shape, m, e) == m
  {
  }

  lemma OneMoreOp(shape: Shape, m: PlainMap, ops: seq<Op>, op: Op)
    ensures AnswersOn(shape, m, ops + [op]) ==
            AnswersOn(shape, m, ops) + [AnswerOn(shape, MapAfterAll(shape, m, ops), op)]
    ensures MapAfterAll(shape, m, ops + [op]) == MapAfter(shape, MapAfterAll(shape, m, ops), op)
  {
    assert (ops + [op])[..|ops|] == ops;
  }

  /** In particular those of a run. */
  lemma RunIsOperations(env: Env, c: Contract, shape: Shape, m: PlainMap)
    requires OverStack(env.ports, shape, m)
    ensures var seg := Process(env, [], c).seg;
      AnswersOn(shape, m, Ops(seg)) == Replies(seg) && MapAfterAll(shape, m, Ops(seg)) == Recorded(shape, m, seg)
  {
    hide Process, OverStack, Verdicts.Answered, Verdicts.Concerns;
    Verdicts.RepliesAreThePorts(env, [], c);
    var seg := Process(env, [], c).seg;
    forall i | 0 <= i < |seg| ensures Verdicts.Answered(env.ports, seg[..i], seg[i]) {
      assert Verdicts.Genuine(env.ports, [] + seg[..i], c, seg[i]);
      assert [] + seg[..i] == seg[..i];
    }
    CallsAreOperations(env.ports, shape, m, seg);
  }
}
