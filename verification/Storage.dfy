/** The storage stack as heap objects: routing by scheme, over compression, over a dictionary. */
module Storage {
  import opened Outcomes
  import opened Json
  import opened Contracts
  import opened Ports
  import opened Addressing
  import opened Text

  // ---------------------------------------------------------------- the in-memory store

  function MemRead(objects: map<string, Bytes>, supported: set<string>, uri: string): Reply<Bytes> {
    if SchemeOf(uri) !in supported then Refuse(UnsupportedScheme)
    else if uri !in objects then Refuse(InputNotFound)
    else Done(objects[uri])
  }

  function MemWrite(supported: set<string>, uri: string, payload: Bytes): Reply<WriteReceipt> {
    if SchemeOf(uri) !in supported then Refuse(UnsupportedScheme)
    else Done(WriteReceipt(uri, |payload|, "in-memory"))
  }

  class InMemoryStorage {
    var objects: map<string, Bytes>
    const supported: set<string>

    constructor (seed: map<string, Bytes>, supported: set<string>)
      ensures objects == seed && this.supported == supported
    {
      objects := seed;
      this.supported := supported;
    }

    method Read(spec: InputSpec, credentials: Credentials) returns (r: Reply<Bytes>)
      ensures r == MemRead(objects, supported, spec.target.uri)
    {
      var uri := spec.target.uri;
      if SchemeOf(uri) !in supported {
        return Refuse(UnsupportedScheme);
      }
      if uri !in objects {
        return Refuse(InputNotFound);
      }
      r := Done(objects[uri]);
    }

    method Write(spec: OutputSpec, payload: Bytes, credentials: Credentials) returns (r: Reply<WriteReceipt>)
      modifies this
      ensures r == MemWrite(supported, spec.target.uri, payload)
      ensures objects == if r.Done? then old(objects)[spec.target.uri := payload] else old(objects)
    {
      var uri := spec.target.uri;
      if SchemeOf(uri) !in supported {
        return Refuse(UnsupportedScheme);
      }
      objects := objects[uri := payload];
      r := Done(WriteReceipt(uri, |payload|, "in-memory"));
    }
  }

  // ---------------------------------------------------------------- compression

  /** What a decompressor gives: bytes, the error its adapter knows, or another exception. */
  datatype Decoded = Plain(bytes: Bytes) | BadData | Fails(tag: nat)

  datatype Codec = Codec(compress: Bytes -> Bytes, decompress: Bytes -> Decoded) {
    ghost predicate Inverse() { forall b :: decompress(compress(b)) == Plain(b) }
  }

  datatype Codecs = Codecs(gzip: Codec, zstd: Codec) {
    ghost predicate Inverse() { gzip.Inverse() && zstd.Inverse() }

    function Compress(compression: string, payload: Bytes): Option<Bytes> {
      if compression == "none" then Some(payload)
      else if compression == "gzip" then Some(gzip.compress(payload))
      else if compression == "zstd" then Some(zstd.compress(payload))
      else None
    }

    function Decompress(compression: string, raw: Bytes): Reply<Bytes> {
      if compression == "none" then Done(raw)
      else if compression == "gzip" then Decoding(gzip.decompress(raw))
      else if compression == "zstd" then Decoding(zstd.decompress(raw))
      else Refuse(InputRead)
    }

    static function Decoding(d: Decoded): Reply<Bytes> {
      match d case Plain(b) => Done(b) case BadData => Refuse(InputRead) case Fails(n) => Crash(n)
    }

    lemma Restores(compression: string, payload: Bytes)
      requires Inverse() && Compress(compression, payload).Some?
      ensures Decompress(compression, Compress(compression, payload).value) == Done(payload)
    {
    }
  }

  class CompressedStorage {
    const inner: InMemoryStorage
    const codecs: Codecs

    constructor (inner: InMemoryStorage, codecs: Codecs)
      ensures this.inner == inner && this.codecs == codecs
    {
      this.inner := inner;
      this.codecs := codecs;
    }

    method Read(spec: InputSpec, credentials: Credentials) returns (r: Reply<Bytes>)
      ensures var raw := MemRead(inner.objects, inner.supported, spec.target.uri);
        r == if raw.Done? then codecs.Decompress(spec.target.compression, raw.value) else raw
    {
      var raw := inner.Read(spec, credentials);
      if !raw.Done? {
        return raw;
      }
      if spec.target.compression == "none" {
        return raw;
      }
      if spec.target.compression == "gzip" {
        return Codecs.Decoding(codecs.gzip.decompress(raw.value));
      }
      if spec.target.compression == "zstd" {
        return Codecs.Decoding(codecs.zstd.decompress(raw.value));
      }
      r := Refuse(InputRead);
    }

    method Write(spec: OutputSpec, payload: Bytes, credentials: Credentials) returns (r: Reply<WriteReceipt>)
      modifies inner
      ensures var packed := codecs.Compress(spec.target.compression, payload);
        && r == (if packed.None? then Refuse(OutputWrite) else MemWrite(inner.supported, spec.target.uri, packed.value))
        && inner.objects == (if packed.Some? && r.Done? then old(inner.objects)[spec.target.uri := packed.value]
                             else old(inner.objects))
    {
      var transformed: Bytes;
      if spec.target.compression == "none" {
        transformed := payload;
      } else if spec.target.compression == "gzip" {
        transformed := codecs.gzip.compress(payload);
      } else if spec.target.compression == "zstd" {
        transformed := codecs.zstd.compress(payload);
      } else {
        return Refuse(OutputWrite);
      }
      r := inner.Write(spec, transformed, credentials);
    }
  }

  // ---------------------------------------------------------------- the plain map it amounts to

  /** What a plain map keeps for a URI: a payload, and the compression it was written with. */
  datatype Entry = Entry(payload: Bytes, compression: string)
  type PlainMap = map<string, Entry>

  /** What does not change while a stack is used: its codecs, the schemes it routes, and those it
      routes to a store that supports them. */
  datatype Shape = Shape(codecs: Codecs, routed: set<string>, served: set<string>) {
    predicate Serves(uri: string) { SchemeOf(uri) in served }

    function StoredAs(e: Entry): Bytes {
      match codecs.Compress(e.compression, e.payload) case Some(b) => b case None => e.payload
    }

    function Read(m: PlainMap, spec: InputSpec): Reply<Bytes> {
      var uri := spec.target.uri;
      if !Serves(uri) then Refuse(UnsupportedScheme)
      else if uri !in m then Refuse(InputNotFound)
      else if spec.target.compression == m[uri].compression then Done(m[uri].payload)
      else codecs.Decompress(spec.target.compression, StoredAs(m[uri]))
    }

    function Write(spec: OutputSpec, payload: Bytes): Reply<WriteReceipt> {
      var packed := codecs.Compress(spec.target.compression, payload);
      if SchemeOf(spec.target.uri) !in routed then Refuse(UnsupportedScheme)
      else if packed.None? then Refuse(OutputWrite)
      else if !Serves(spec.target.uri) then Refuse(UnsupportedScheme)
      else Done(WriteReceipt(spec.target.uri, |packed.value|, "in-memory"))
    }

    function After(m: PlainMap, spec: OutputSpec, payload: Bytes): PlainMap {
      if Write(spec, payload).Done? then m[spec.target.uri := Entry(payload, spec.target.compression)] else m
    }

    /** Every entry has a known compression. */
    ghost predicate Packable(m: PlainMap) {
      forall uri | uri in m :: codecs.Compress(m[uri].compression, m[uri].payload).Some?
    }
  }

  datatype Op = ReadOp(source: InputSpec) | WriteOp(sink: OutputSpec, payload: Bytes)
  datatype Answer = Loaded(bytes: Reply<Bytes>) | Saved(receipt: Reply<WriteReceipt>)

  function AnswerOn(shape: Shape, m: PlainMap, op: Op): Answer {
    match op
    case ReadOp(spec) => Loaded(shape.Read(m, spec))
    case WriteOp(spec, payload) => Saved(shape.Write(spec, payload))
  }

  function MapAfter(shape: Shape, m: PlainMap, op: Op): PlainMap {
    match op
    case ReadOp(_) => m
    case WriteOp(spec, payload) => shape.After(m, spec, payload)
  }

  /** A whole sequence of operations on the plain map. */
  function MapAfterAll(shape: Shape, m: PlainMap, ops: seq<Op>): PlainMap {
    if ops == [] then m else MapAfter(shape, MapAfterAll(shape, m, ops[..|ops| - 1]), ops[|ops| - 1])
  }

  /** And the answers it gives on the way. */
  function AnswersOn(shape: Shape, m: PlainMap, ops: seq<Op>): (answers: seq<Answer>)
    ensures |answers| == |ops|
  {
    if ops == [] then []
    else
      var init := ops[..|ops| - 1];
      AnswersOn(shape, m, init) + [AnswerOn(shape, MapAfterAll(shape, m, init), ops[|ops| - 1])]
  }

  /** On the plain map, a write changes its own URI and no other. */
  lemma WriteChangesOneUri(shape: Shape, m: PlainMap, op: Op, uri: string)
    requires op.WriteOp? ==> op.sink.target.uri != uri || !shape.Write(op.sink, op.payload).Done?
    ensures (uri in MapAfter(shape, m, op) <==> uri in m) && (uri in m ==> MapAfter(shape, m, op)[uri] == m[uri])
  {
  }

  lemma {:induction false} KeepsEntry(shape: Shape, m: PlainMap, ops: seq<Op>, uri: string)
    requires forall op | op in ops && op.WriteOp? ::
               op.sink.target.uri != uri || !shape.Write(op.sink, op.payload).Done?
    ensures (uri in MapAfterAll(shape, m, ops) <==> uri in m)
            && (uri in m ==> MapAfterAll(shape, m, ops)[uri] == m[uri])
  {
    if ops != [] {
      var init, last := ops[..|ops| - 1], ops[|ops| - 1];
      assert last in ops && forall op :: op in init ==> op in ops;
      KeepsEntry(shape, m, init, uri);
      WriteChangesOneUri(shape, MapAfterAll(shape, m, init), last, uri);
    }
  }

  /** After any operations that do not write the URI again, reading it with the compression of the
      last write gives the payload of that write. */
  lemma ReadsLastWrite(shape: Shape, m: PlainMap, sink: OutputSpec, payload: Bytes, between: seq<Op>, source: InputSpec)
    requires shape.Write(sink, payload).Done?
    requires source.target.uri == sink.target.uri && source.target.compression == sink.target.compression
    requires forall op | op in between && op.WriteOp? ::
               op.sink.target.uri != sink.target.uri || !shape.Write(op.sink, op.payload).Done?
    ensures shape.Read(MapAfterAll(shape, MapAfter(shape, m, WriteOp(sink, payload)), between), source) == Done(payload)
  {
    KeepsEntry(shape, MapAfter(shape, m, WriteOp(sink, payload)), between, sink.target.uri);
  }

  // ---------------------------------------------------------------- the composite store

  type Routes = map<string, CompressedStorage>

  /** The constructor's mapping: scheme names in lower case, a later one replacing an earlier. */
  function Lowered(pairs: seq<(string, CompressedStorage)>): Routes {
    if pairs == [] then map[]
    else
      var last := pairs[|pairs| - 1];
      Lowered(pairs[..|pairs| - 1])[Lower(last.0) := last.1]
  }

  class CompositeStorage {
    const byScheme: Routes

    /** Several schemes may share an adapter, and several adapters a store. */
    constructor (pairs: seq<(string, CompressedStorage)>)
      ensures byScheme == Lowered(pairs)
    {
      byScheme := Lowered(pairs);
    }

    ghost function Stores(): set<InMemoryStorage> { set k | k in byScheme :: byScheme[k].inner }

    /** All adapters use the same two codec libraries. */
    ghost predicate Uses(codecs: Codecs) { forall k | k in byScheme :: byScheme[k].codecs == codecs }

    ghost function ShapeWith(codecs: Codecs): Shape {
      Shape(codecs, byScheme.Keys, set k | k in byScheme && k in byScheme[k].inner.supported)
    }

    /** The bytes an object is stored as, seen through the routing. */
    ghost function Stored(uri: string): Option<Bytes>
      reads Stores()
    {
      var scheme := SchemeOf(uri);
      if scheme in byScheme && scheme in byScheme[scheme].inner.supported && uri in byScheme[scheme].inner.objects
      then Some(byScheme[scheme].inner.objects[uri]) else None
    }

    /** The heap of adapters and stores amounts to the plain map `m`. */
    ghost predicate Represents(shape: Shape, m: PlainMap)
      reads Stores()
    {
      && Uses(shape.codecs) && shape == ShapeWith(shape.codecs) && shape.codecs.Inverse() && shape.Packable(m)
      && forall uri :: Stored(uri) == if uri in m && shape.Serves(uri) then Some(shape.StoredAs(m[uri])) else None
    }

    /** What is stored already counts as written uncompressed, */
    ghost function Seeds(): PlainMap
      reads Stores()
    {
      map k, uri | k in byScheme && uri in byScheme[k].inner.objects && Stored(uri).Some? ::
        uri := Entry(Stored(uri).value, "none")
    }

    /** so every stack amounts to some plain map to begin with. */
    lemma Begins(codecs: Codecs)
      requires Uses(codecs) && codecs.Inverse()
      ensures Represents(ShapeWith(codecs), Seeds())
    {
      forall uri
        ensures Stored(uri) == if uri in Seeds() && ShapeWith(codecs).Serves(uri)
                               then Some(ShapeWith(codecs).StoredAs(Seeds()[uri])) else None
      {
        if Stored(uri).Some? {
          assert SchemeOf(uri) in byScheme && uri in byScheme[SchemeOf(uri)].inner.objects;
        }
      }
    }

    method Read(spec: InputSpec, credentials: Credentials, ghost shape: Shape, ghost m: PlainMap)
      returns (r: Reply<Bytes>)
      requires Represents(shape, m)
      ensures r == shape.Read(m, spec)
    {
      var scheme := SchemeOf(spec.target.uri);
      if scheme !in byScheme {
        return Refuse(UnsupportedScheme);
      }
      ghost var stored := Stored(spec.target.uri);
      if spec.target.uri in m {
        shape.codecs.Restores(m[spec.target.uri].compression, m[spec.target.uri].payload);
      }
      r := byScheme[scheme].Read(spec, credentials);
    }

    method Write(spec: OutputSpec, payload: Bytes, credentials: Credentials, ghost shape: Shape, ghost m: PlainMap)
      returns (r: Reply<WriteReceipt>)
      requires Represents(shape, m)
      modifies Stores()
      ensures r == shape.Write(spec, payload)
      ensures Represents(shape, shape.After(m, spec, payload))
    {
      var scheme := SchemeOf(spec.target.uri);
      if scheme !in byScheme {
        return Refuse(UnsupportedScheme);
      }
      r := byScheme[scheme].Write(spec, payload, credentials);
      ghost var after := shape.After(m, spec, payload);
      forall uri
        ensures Stored(uri) == if uri in after && shape.Serves(uri) then Some(shape.StoredAs(after[uri])) else None
      {
        assert old(Stored(uri)) == if uri in m && shape.Serves(uri) then Some(shape.StoredAs(m[uri])) else None;
      }
    }
  }

  lemma NoOps(shape: Shape, m: PlainMap, ops: seq<Op>)
    ensures MapAfterAll(shape, m, ops[..0]) == m && AnswersOn(shape, m, ops[..0]) == []
  {
  }

  lemma OneOpMore(shape: Shape, m: PlainMap, ops: seq<Op>, i: nat)
    requires i < |ops|
    ensures MapAfterAll(shape, m, ops[..i + 1]) == MapAfter(shape, MapAfterAll(shape, m, ops[..i]), ops[i])
    ensures AnswersOn(shape, m, ops[..i + 1]) ==
            AnswersOn(shape, m, ops[..i]) + [AnswerOn(shape, MapAfterAll(shape, m, ops[..i]), ops[i])]
  {
    assert ops[..i + 1][..i] == ops[..i];
  }

  /** Any sequence of operations on a composite store is answered as the plain map answers it. */
  method RunAll(store: CompositeStorage, ops: seq<Op>, credentials: Credentials, ghost shape: Shape, ghost m: PlainMap)
    returns (answers: seq<Answer>)
    requires store.Represents(shape, m)
    modifies store.Stores()
    ensures answers == AnswersOn(shape, m, ops)
    ensures store.Represents(shape, MapAfterAll(shape, m, ops))
  {
    hide MapAfterAll, AnswersOn;
    answers := [];
    NoOps(shape, m, ops);
    for i := 0 to |ops|
      invariant answers == AnswersOn(shape, m, ops[..i])
      invariant store.Represents(shape, MapAfterAll(shape, m, ops[..i]))
    {
      OneOpMore(shape, m, ops, i);
      var answer := RunOne(store, ops[i], credentials, shape, MapAfterAll(shape, m, ops[..i]));
      answers := answers + [answer];
    }
    assert ops[..|ops|] == ops;
  }

  method RunOne(store: CompositeStorage, op: Op, credentials: Credentials, ghost shape: Shape, ghost m: PlainMap)
    returns (answer: Answer)
    requires store.Represents(shape, m)
    modifies store.Stores()
    ensures answer == AnswerOn(shape, m, op)
    ensures store.Represents(shape, MapAfter(shape, m, op))
  {
    match op {
      case ReadOp(spec) =>
        var bytes := store.Read(spec, credentials, shape, m);
        answer := Loaded(bytes);
      case WriteOp(spec, payload) =>
        var receipt := store.Write(spec, payload, credentials, shape, m);
        answer := Saved(receipt);
    }
  }
}
