/** The contract every service receives: its sections, their validation from JSON, their dump. */
module Contracts {
  import opened Outcomes
  import opened Text
  import opened Duplicates
  import opened Json
  import opened Security
  import opened SecretRefs
  import opened Urls

  datatype Envelope = Envelope(version: string, requestId: string, createdAt: string, origin: string)
  datatype References = References(parameterId: string, resultId: string)
  datatype Service = Service(name: string, version: string)
  datatype Callback = Callback(url: string, authScheme: string)
  datatype Hints = Hints(format: string, body: Json)
  datatype HttpUrl = HttpUrl(scheme: string, text: string)

  /** The part an input and an output specification share. */
  datatype Target = Target(role: string, uri: string, format: string, hints: Hints, compression: string,
                           credential: Option<SecretRef>)
  datatype InputSpec = InputSpec(target: Target)
  datatype OutputSpec = OutputSpec(target: Target, writeMode: string)

  /** `parameters` is kept as its canonical JSON: the dump of the typed model. */
  datatype Contract = Contract(envelope: Envelope, identity: Identity, references: References, service: Service,
                               inputs: seq<InputSpec>, outputs: seq<OutputSpec>, callback: Callback, parameters: Json)

  /** The scalar readers of the validation library and of the service: text to canonical value. */
  datatype Leaves = Leaves(uuid: Json -> Option<string>, instant: Json -> Option<string>, url: Json -> Option<string>,
                           httpUrl: Json -> Option<HttpUrl>, hints: Json -> Option<Hints>, brackets: BracketRule)
  {
    /** Reading a dumped value gives that value back. */
    ghost predicate Stable() {
      && (forall j :: uuid(j).Some? ==> uuid(Str(uuid(j).value)) == uuid(j) && |uuid(j).value| == 36)
      && (forall j :: instant(j).Some? ==> instant(Str(instant(j).value)) == instant(j))
      && (forall j :: url(j).Some? ==> url(Str(url(j).value)) == url(j))
      && (forall j :: httpUrl(j).Some? ==> httpUrl(Str(httpUrl(j).value.text)) == httpUrl(j))
      && (forall j :: hints(j).Some? ==> hints(hints(j).value.body) == hints(j))
    }
  }

  /** The parameters model of a service: accepted JSON to its canonical dump. */
  type ParamsReader = Json -> Option<Json>

  ghost predicate StableParams(params: ParamsReader) {
    forall j :: params(j).Some? ==> params(params(j).value) == params(j)
  }

  const SUPPORTED_VERSIONS: set<string> := {"1.0", "1.1"}
  const READOUT_PROTOCOL_VERSION := "1.1"
  const ORIGINS: set<string> := {"web", "api", "mcp", "internal"}
  const FORMATS: set<string> := {"xlsx", "csv", "json", "parquet", "bigquery", "inline"}
  const COMPRESSIONS: set<string> := {"none", "gzip", "zstd"}
  const WRITE_MODES: set<string> := {"overwrite", "append", "fail_if_exists"}
  const MAX_INPUTS := 10
  const MAX_SERVICE_OUTPUTS := 10
  const MAX_OUTPUTS := MAX_SERVICE_OUTPUTS + 1

  // The patterns of the text fields.
  predicate Lowercase(c: char) { 'a' <= c <= 'z' }
  predicate Digit(c: char) { '0' <= c <= '9' }
  predicate Long(s: string, max: nat) { 1 <= |s| <= max }
  predicate IsRole(s: string) {
    Long(s, 32) && Lowercase(s[0]) && forall c | c in s :: Lowercase(c) || Digit(c) || c == '_'
  }
  predicate IsTenant(s: string) {
    Long(s, 64) && forall c | c in s :: Lowercase(c) || Digit(c) || c == '-'
  }
  predicate IsServiceName(s: string) {
    Long(s, 64) && Lowercase(s[0]) && forall c | c in s :: Lowercase(c) || Digit(c) || c == '_' || c == '-'
  }
  predicate IsSemverText(s: string) {
    var parts := Split(s, '.');
    |parts| == 3 && forall p | p in parts :: p != "" && forall c | c in p :: Digit(c)
  }
  predicate IsSemver(s: string) { 5 <= |s| <= 32 && IsSemverText(s) }

  predicate HasKeys(j: Json, required: set<string>, optional: set<string>) {
    j.Obj? && required <= j.fields.Keys <= required + optional
  }

  function TextAt(j: Json, key: string): (r: Option<string>) {
    match Field(j, key) case Some(Str(s)) => Some(s) case _ => None
  }

  function At<T>(j: Json, key: string, leaf: Json -> Option<T>): Option<T> {
    match Field(j, key) case Some(v) => leaf(v) case None => None
  }

  // ---------------------------------------------------------------- sections

  predicate ValidEnvelope(e: Envelope, l: Leaves) {
    && e.version in SUPPORTED_VERSIONS && e.origin in ORIGINS
    && l.uuid(Str(e.requestId)) == Some(e.requestId) && l.instant(Str(e.createdAt)) == Some(e.createdAt)
  }

  function ReadEnvelope(j: Json, l: Leaves): (r: Option<Envelope>)
    ensures r.Some? && l.Stable() ==> ValidEnvelope(r.value, l)
  {
    var v, o, u, t := TextAt(j, "protocol_version"), TextAt(j, "origin"),
                      At(j, "request_id", l.uuid), At(j, "created_at", l.instant);
    if !HasKeys(j, {"protocol_version", "request_id", "created_at", "origin"}, {}) then None
    else if v.None? || o.None? || u.None? || t.None? then None
    else if v.value !in SUPPORTED_VERSIONS || o.value !in ORIGINS then None
    else Some(Envelope(v.value, u.value, t.value, o.value))
  }

  function DumpEnvelope(e: Envelope): Json {
    Obj(map["protocol_version" := Str(e.version), "request_id" := Str(e.requestId),
            "created_at" := Str(e.createdAt), "origin" := Str(e.origin)])
  }

  lemma EnvelopeBack(e: Envelope, l: Leaves)
    requires ValidEnvelope(e, l)
    ensures ReadEnvelope(DumpEnvelope(e), l) == Some(e)
  {
  }

  predicate ValidIdentity(i: Identity) { Long(i.userId, 64) && IsTenant(i.tenantId) }

  function ReadIdentity(j: Json): (r: Option<Identity>)
    ensures r.Some? ==> ValidIdentity(r.value)
  {
    var u, t := TextAt(j, "user_id"), TextAt(j, "tenant_id");
    if !HasKeys(j, {"user_id", "tenant_id"}, {}) || u.None? || t.None? then None
    else if !ValidIdentity(Identity(u.value, t.value)) then None
    else Some(Identity(u.value, t.value))
  }

  function DumpIdentity(i: Identity): Json {
    Obj(map["user_id" := Str(i.userId), "tenant_id" := Str(i.tenantId)])
  }

  predicate ValidReferences(r: References) { Long(r.parameterId, 128) && Long(r.resultId, 128) }

  function ReadReferences(j: Json): (r: Option<References>)
    ensures r.Some? ==> ValidReferences(r.value)
  {
    var p, q := TextAt(j, "parameter_id"), TextAt(j, "result_id");
    if !HasKeys(j, {"parameter_id", "result_id"}, {}) || p.None? || q.None? then None
    else if !ValidReferences(References(p.value, q.value)) then None
    else Some(References(p.value, q.value))
  }

  function DumpReferences(r: References): Json {
    Obj(map["parameter_id" := Str(r.parameterId), "result_id" := Str(r.resultId)])
  }

  predicate ValidService(s: Service) { IsServiceName(s.name) && IsSemver(s.version) }

  function ReadService(j: Json): (r: Option<Service>)
    ensures r.Some? ==> ValidService(r.value)
  {
    var n, v := TextAt(j, "name"), TextAt(j, "version");
    if !HasKeys(j, {"name", "version"}, {}) || n.None? || v.None? then None
    else if !ValidService(Service(n.value, v.value)) then None
    else Some(Service(n.value, v.value))
  }

  function DumpService(s: Service): Json {
    Obj(map["name" := Str(s.name), "version" := Str(s.version)])
  }

  predicate ValidCallback(c: Callback, l: Leaves) {
    c.authScheme == "jwt_hs256" && l.httpUrl(Str(c.url)) == Some(HttpUrl("https", c.url))
  }

  function ReadCallback(j: Json, l: Leaves): (r: Option<Callback>)
    ensures r.Some? && l.Stable() ==> ValidCallback(r.value, l)
  {
    var u, a := At(j, "url", l.httpUrl), TextAt(j, "auth_scheme");
    if !HasKeys(j, {"url", "auth_scheme"}, {}) || u.None? || a.None? then None
    else if u.value.scheme != "https" || a.value != "jwt_hs256" then None
    else Some(Callback(u.value.text, a.value))
  }

  function DumpCallback(c: Callback): Json {
    Obj(map["url" := Str(c.url), "auth_scheme" := Str(c.authScheme)])
  }

  lemma IdsBack(i: Identity, r: References)
    requires ValidIdentity(i) && ValidReferences(r)
    ensures ReadIdentity(DumpIdentity(i)) == Some(i) && ReadReferences(DumpReferences(r)) == Some(r)
  {
    hide IsTenant;
  }

  lemma ServiceBack(s: Service, c: Callback, l: Leaves)
    requires ValidService(s) && ValidCallback(c, l)
    ensures ReadService(DumpService(s)) == Some(s) && ReadCallback(DumpCallback(c), l) == Some(c)
  {
    hide IsServiceName, IsSemver, IsSemverText;
  }

  // ---------------------------------------------------------------- inputs and outputs

  /** A reference comes as its text, or as its fields, which no character rule restricts. */
  function ReadCredential(j: Option<Json>, l: Leaves): (r: Option<Option<SecretRef>>)
    ensures r.Some? && r.value.Some? ==> r.value.value.Bounded()
  {
    match j
    case None => Some(None)
    case Some(Null) => Some(None)
    case Some(Str(uri)) =>
      (match ParseSecretUri(uri, l.brackets) case Some(ref) => Some(Some(ref)) case None => None)
    case Some(Obj(fields)) =>
      var o := Obj(fields);
      var p, n := TextAt(o, "provider"), TextAt(o, "name");
      var v := if "version" in fields then TextAt(o, "version") else Some("latest");
      if !HasKeys(o, {"provider", "name"}, {"version"}) || p.None? || n.None? || v.None? then None
      else
        var ref := SecretRef(p.value, n.value, v.value);
        if ref.Bounded() then Some(Some(ref)) else None
    case _ => None
  }

  function DumpCredential(credential: Option<SecretRef>): Json {
    match credential case None => Null case Some(ref) => Str(ref.ToUri())
  }

  /** The form that carries every reference: its fields. */
  function WireCredential(credential: Option<SecretRef>): Json {
    match credential
    case None => Null
    case Some(ref) => Obj(map["provider" := Str(ref.provider), "name" := Str(ref.name), "version" := Str(ref.version)])
  }

  lemma WireCredentialBack(credential: Option<SecretRef>, l: Leaves)
    requires credential.Some? ==> credential.value.Bounded()
    ensures ReadCredential(Some(WireCredential(credential)), l) == Some(credential)
  {
    hide ParseSecretUri;
    if credential.Some? {
      var j := WireCredential(credential);
      assert Obj(j.fields) == j && HasKeys(j, {"provider", "name"}, {"version"});
    }
  }

  predicate PrintableCredential(credential: Option<SecretRef>, l: Leaves) {
    credential.Some? ==> credential.value.Printable(l.brackets)
  }

  /** The dump of a credential reads back exactly when its reference is printable. */
  lemma CredentialBack(credential: Option<SecretRef>, l: Leaves)
    requires credential.Some? ==> credential.value.Bounded()
    ensures ReadCredential(Some(DumpCredential(credential)), l) == Some(credential) <==>
            PrintableCredential(credential, l)
  {
    hide ParseSecretUri, UrlParse, NetlocOk;
    if credential.Some? {
      var ref := credential.value;
      RoundTripExactly(ref, l.brackets);
      assert DumpCredential(credential) == Str(ref.ToUri());
    }
  }

  /** A reference given by its fields is accepted with characters its text cannot carry, and then
      its dump names another secret. */
  lemma FieldsMayNotSurviveTheDump(l: Leaves)
    ensures
      var ref := SecretRef("p", "a/b", "latest");
      && ReadCredential(Some(Obj(map["provider" := Str("p"), "name" := Str("a/b")])), l) == Some(Some(ref))
      && ReadCredential(Some(DumpCredential(Some(ref))), l) == Some(Some(SecretRef("p", "a", "b")))
  {
    hide ParseSecretUri;
    SlashInNameReadsAsVersion(l.brackets);
    var j := Obj(map["provider" := Str("p"), "name" := Str("a/b")]);
    assert TextAt(j, "provider") == Some("p") && TextAt(j, "name") == Some("a/b") && "version" !in j.fields;
    assert HasKeys(j, {"provider", "name"}, {"version"});
  }

  predicate ValidTarget(t: Target, l: Leaves) {
    && IsRole(t.role) && l.url(Str(t.uri)) == Some(t.uri)
    && t.format in FORMATS && l.hints(t.hints.body) == Some(t.hints) && t.hints.format == t.format
    && t.compression in COMPRESSIONS
    && (t.credential.Some? ==> t.credential.value.Bounded())
  }

  function ReadTarget(j: Json, uriKey: string, l: Leaves): (r: Option<Target>)
    ensures r.Some? && l.Stable() ==> ValidTarget(r.value, l)
  {
    var role, uri, format, hints := TextAt(j, "role"), At(j, uriKey, l.url), TextAt(j, "format"),
        At(j, "format_hints", l.hints);
    var compression := if Field(j, "compression").None? then Some("none") else TextAt(j, "compression");
    var credential := ReadCredential(Field(j, "credential_ref"), l);
    if role.None? || uri.None? || format.None? || hints.None? || compression.None? || credential.None? then None
    else if !IsRole(role.value) || format.value !in FORMATS || compression.value !in COMPRESSIONS then None
    else if hints.value.format != format.value then None
    else Some(Target(role.value, uri.value, format.value, hints.value, compression.value, credential.value))
  }

  predicate ValidInput(s: InputSpec, l: Leaves) { ValidTarget(s.target, l) }

  predicate ValidOutput(s: OutputSpec, l: Leaves) { ValidTarget(s.target, l) && s.writeMode in WRITE_MODES }

  function ReadInput(j: Json, l: Leaves): (r: Option<InputSpec>)
    ensures r.Some? && l.Stable() ==> ValidInput(r.value, l)
  {
    if !HasKeys(j, {"role", "source_uri", "format", "format_hints"}, {"compression", "credential_ref"}) then None
    else match ReadTarget(j, "source_uri", l)
      case None => None
      case Some(t) => Some(InputSpec(t))
  }

  function ReadOutput(j: Json, l: Leaves): (r: Option<OutputSpec>)
    ensures r.Some? && l.Stable() ==> ValidOutput(r.value, l)
  {
    var mode := if Field(j, "write_mode").None? then Some("overwrite") else TextAt(j, "write_mode");
    if !HasKeys(j, {"role", "destination_uri", "format", "format_hints"},
                {"compression", "write_mode", "credential_ref"}) then None
    else match ReadTarget(j, "destination_uri", l)
      case None => None
      case Some(t) => if mode.None? || mode.value !in WRITE_MODES then None else Some(OutputSpec(t, mode.value))
  }

  /** A specification written with its credential as given. */
  function InputJson(s: InputSpec, credential: Json): Json {
    var t := s.target;
    Obj(map["role" := Str(t.role), "source_uri" := Str(t.uri), "format" := Str(t.format),
            "format_hints" := t.hints.body, "compression" := Str(t.compression), "credential_ref" := credential])
  }

  function OutputJson(s: OutputSpec, credential: Json): Json {
    var t := s.target;
    Obj(map["role" := Str(t.role), "destination_uri" := Str(t.uri), "format" := Str(t.format),
            "format_hints" := t.hints.body, "compression" := Str(t.compression), "write_mode" := Str(s.writeMode),
            "credential_ref" := credential])
  }

  function DumpInput(s: InputSpec): Json { InputJson(s, DumpCredential(s.target.credential)) }

  function DumpOutput(s: OutputSpec): Json { OutputJson(s, DumpCredential(s.target.credential)) }

  function WireInput(s: InputSpec): Json { InputJson(s, WireCredential(s.target.credential)) }

  function WireOutput(s: OutputSpec): Json { OutputJson(s, WireCredential(s.target.credential)) }

  /** What a written specification says field by field. */
  ghost predicate Says(j: Json, t: Target, uriKey: string, credential: Json) {
    && Field(j, "role") == Some(Str(t.role)) && Field(j, uriKey) == Some(Str(t.uri))
    && Field(j, "format") == Some(Str(t.format)) && Field(j, "format_hints") == Some(t.hints.body)
    && Field(j, "compression") == Some(Str(t.compression))
    && Field(j, "credential_ref") == Some(credential)
  }

  lemma TargetBack(j: Json, t: Target, uriKey: string, credential: Json, l: Leaves)
    requires ValidTarget(t, l) && Says(j, t, uriKey, credential)
    ensures ReadTarget(j, uriKey, l) == Some(t) <==> ReadCredential(Some(credential), l) == Some(t.credential)
  {
    hide ReadCredential, IsRole, Field;
    assert TextAt(j, "role") == Some(t.role) && TextAt(j, "format") == Some(t.format);
    assert TextAt(j, "compression") == Some(t.compression);
    assert At(j, uriKey, l.url) == Some(t.uri) && At(j, "format_hints", l.hints) == Some(t.hints);
    hide TextAt, At;
  }

  /** A written specification reads back exactly when its credential does. */
  lemma InputBack(s: InputSpec, credential: Json, l: Leaves)
    requires ValidInput(s, l)
    ensures ReadInput(InputJson(s, credential), l) == Some(s) <==>
            ReadCredential(Some(credential), l) == Some(s.target.credential)
  {
    hide ReadTarget, IsRole, ReadCredential;
    assert Says(InputJson(s, credential), s.target, "source_uri", credential);
    TargetBack(InputJson(s, credential), s.target, "source_uri", credential, l);
  }

  lemma OutputBack(s: OutputSpec, credential: Json, l: Leaves)
    requires ValidOutput(s, l)
    ensures ReadOutput(OutputJson(s, credential), l) == Some(s) <==>
            ReadCredential(Some(credential), l) == Some(s.target.credential)
  {
    hide ReadTarget, IsRole, ReadCredential;
    assert Says(OutputJson(s, credential), s.target, "destination_uri", credential);
    TargetBack(OutputJson(s, credential), s.target, "destination_uri", credential, l);
  }

  // ---------------------------------------------------------------- the whole contract

  /** A bounded JSON list, all of whose items are read. */
  function ReadList<T>(j: Option<Json>, read: Json -> Option<T>, max: nat): (r: Option<seq<T>>)
    ensures r.Some? ==> 1 <= |r.value| <= max && j.Some? && j.value.Arr? && |j.value.items| == |r.value|
    ensures r.Some? ==> forall i | 0 <= i < |r.value| :: read(j.value.items[i]) == Some(r.value[i])
  {
    match j
    case Some(Arr(items)) =>
      if 1 <= |items| <= max && forall i | 0 <= i < |items| :: read(items[i]).Some?
      then Some(seq(|items|, i requires 0 <= i < |items| => read(items[i]).value))
      else None
    case _ => None
  }

  function DumpList<T>(items: seq<T>, dump: T -> Json): Json {
    Arr(seq(|items|, i requires 0 <= i < |items| => dump(items[i])))
  }

  /** A dumped list reads back exactly when each of its items does. */
  lemma ListBack<T>(items: seq<T>, read: Json -> Option<T>, dump: T -> Json, max: nat)
    requires 1 <= |items| <= max
    ensures ReadList(Some(DumpList(items, dump)), read, max) == Some(items) <==>
            forall i | 0 <= i < |items| :: read(dump(items[i])) == Some(items[i])
  {
    var j, r := DumpList(items, dump), ReadList(Some(DumpList(items, dump)), read, max);
    assert forall i | 0 <= i < |items| :: j.items[i] == dump(items[i]);
    if forall i | 0 <= i < |items| :: read(dump(items[i])) == Some(items[i]) {
      assert r.Some? && r.value == items;
    }
    if r == Some(items) {
      assert forall i | 0 <= i < |items| :: read(j.items[i]) == Some(items[i]);
    }
  }

  function InputRoles(c: Contract): (r: seq<string>)
    ensures |r| == |c.inputs| && forall i | 0 <= i < |r| :: r[i] == c.inputs[i].target.role
  {
    seq(|c.inputs|, i requires 0 <= i < |c.inputs| => c.inputs[i].target.role)
  }

  function OutputRoles(c: Contract): (r: seq<string>)
    ensures |r| == |c.outputs| && forall i | 0 <= i < |r| :: r[i] == c.outputs[i].target.role
  {
    seq(|c.outputs|, i requires 0 <= i < |c.outputs| => c.outputs[i].target.role)
  }

  /** Everything validation guarantees of a contract. */
  ghost predicate ValidContract(c: Contract, l: Leaves, params: ParamsReader) {
    && ValidSections(c, l) && Distinct(InputRoles(c)) && Distinct(OutputRoles(c))
    && params(c.parameters) == Some(c.parameters)
  }

  ghost predicate ValidSections(c: Contract, l: Leaves) {
    && ValidEnvelope(c.envelope, l) && ValidIdentity(c.identity) && ValidReferences(c.references)
    && ValidService(c.service) && ValidCallback(c.callback, l)
    && 1 <= |c.inputs| <= MAX_INPUTS && (forall i | 0 <= i < |c.inputs| :: ValidInput(c.inputs[i], l))
    && 1 <= |c.outputs| <= MAX_OUTPUTS && (forall i | 0 <= i < |c.outputs| :: ValidOutput(c.outputs[i], l))
  }

  const SECTIONS: set<string> :=
    {"envelope", "identity", "references", "service", "inputs", "outputs", "callback", "parameters"}

  /** The fields of the contract model, with the parameters still as they came. */
  function ReadSections(j: Json, l: Leaves): Option<Contract>
  {
    var e, i, f := At(j, "envelope", x => ReadEnvelope(x, l)), At(j, "identity", ReadIdentity),
        At(j, "references", ReadReferences);
    var s, c, p := At(j, "service", ReadService), At(j, "callback", x => ReadCallback(x, l)), Field(j, "parameters");
    var inputs := ReadList(Field(j, "inputs"), x => ReadInput(x, l), MAX_INPUTS);
    var outputs := ReadList(Field(j, "outputs"), x => ReadOutput(x, l), MAX_OUTPUTS);
    if !HasKeys(j, SECTIONS, {}) then None
    else if e.None? || i.None? || f.None? || s.None? || c.None? || p.None? || inputs.None? || outputs.None? then None
    else Some(Contract(e.value, i.value, f.value, s.value, inputs.value, outputs.value, c.value, p.value))
  }

  /** `model_validate`: `None` is a ValidationError. */
  function Validate(j: Json, l: Leaves, params: ParamsReader): Option<Contract>
  {
    match ReadSections(j, l)
    case None => None
    case Some(c) =>
      if !Distinct(InputRoles(c)) || !Distinct(OutputRoles(c)) then None
      else match params(c.parameters)
        case None => None
        case Some(p) => Some(c.(parameters := p))
  }

  lemma SectionsAreValid(j: Json, l: Leaves)
    requires l.Stable() && ReadSections(j, l).Some?
    ensures ValidSections(ReadSections(j, l).value, l)
  {
    hide ValidEnvelope, ValidIdentity, ValidReferences, ValidService, ValidCallback, ValidInput, ValidOutput;
    hide ReadEnvelope, ReadIdentity, ReadReferences, ReadService, ReadCallback, ReadInput, ReadOutput, ReadList;
    hide HasKeys, Field, SECTIONS;
  }

  /** What a validated contract always is. */
  lemma ValidatedIsValid(j: Json, l: Leaves, params: ParamsReader)
    requires l.Stable() && StableParams(params) && Validate(j, l, params).Some?
    ensures ValidContract(Validate(j, l, params).value, l, params)
  {
    hide ReadSections, Distinct, ValidEnvelope, ValidInput, ValidOutput, ValidIdentity, ValidReferences, ValidService,
         ValidCallback;
    SectionsAreValid(j, l);
    var raw, c := ReadSections(j, l).value, Validate(j, l, params).value;
    assert InputRoles(c) == InputRoles(raw) && OutputRoles(c) == OutputRoles(raw);
  }

  /** A contract written with its lists of specifications as given. */
  function ContractJson(c: Contract, inputs: Json, outputs: Json): Json {
    Obj(map["envelope" := DumpEnvelope(c.envelope), "identity" := DumpIdentity(c.identity),
            "references" := DumpReferences(c.references), "service" := DumpService(c.service),
            "inputs" := inputs, "outputs" := outputs,
            "callback" := DumpCallback(c.callback), "parameters" := c.parameters])
  }

  /** `model_dump(mode="json")`. */
  function Dump(c: Contract): Json {
    ContractJson(c, DumpList(c.inputs, DumpInput), DumpList(c.outputs, DumpOutput))
  }

  /** A message for the contract, with each credential reference written by its fields. */
  function Wire(c: Contract): Json {
    ContractJson(c, DumpList(c.inputs, WireInput), DumpList(c.outputs, WireOutput))
  }

  /** The parameters of the shared receiver: any JSON object, as it is. */
  function OpaqueParams(j: Json): Option<Json> { if j.Obj? then Some(j) else None }

  /** Every credential reference of the contract has a text that reads back. */
  ghost predicate PrintableRefs(c: Contract, l: Leaves) {
    && (forall i | 0 <= i < |c.inputs| :: PrintableCredential(c.inputs[i].target.credential, l))
    && (forall i | 0 <= i < |c.outputs| :: PrintableCredential(c.outputs[i].target.credential, l))
  }

  /** What a written contract says section by section. */
  lemma ContractFields(c: Contract, inputs: Json, outputs: Json)
    ensures var j := ContractJson(c, inputs, outputs);
      && HasKeys(j, SECTIONS, {})
      && Field(j, "envelope") == Some(DumpEnvelope(c.envelope))
      && Field(j, "identity") == Some(DumpIdentity(c.identity))
      && Field(j, "references") == Some(DumpReferences(c.references))
      && Field(j, "service") == Some(DumpService(c.service))
      && Field(j, "inputs") == Some(inputs) && Field(j, "outputs") == Some(outputs)
      && Field(j, "callback") == Some(DumpCallback(c.callback)) && Field(j, "parameters") == Some(c.parameters)
  {
    hide DumpEnvelope, DumpIdentity, DumpReferences, DumpService, DumpCallback;
  }

  /** It reads back exactly when its two lists do. */
  lemma ListsDecide(c: Contract, inputs: Json, outputs: Json, l: Leaves)
    requires ValidSections(c, l)
    ensures ReadSections(ContractJson(c, inputs, outputs), l) == Some(c) <==>
            && ReadList(Some(inputs), x => ReadInput(x, l), MAX_INPUTS) == Some(c.inputs)
            && ReadList(Some(outputs), x => ReadOutput(x, l), MAX_OUTPUTS) == Some(c.outputs)
  {
    hide ContractJson, DumpEnvelope, DumpIdentity, DumpReferences, DumpService, DumpCallback, HasKeys, Field, SECTIONS;
    hide ReadEnvelope, ReadIdentity, ReadReferences, ReadService, ReadCallback, ReadList;
    hide ValidEnvelope, ValidIdentity, ValidReferences, ValidService, ValidCallback, ValidInput, ValidOutput;
    ContractFields(c, inputs, outputs);
    EnvelopeBack(c.envelope, l);
    IdsBack(c.identity, c.references);
    ServiceBack(c.service, c.callback, l);
  }

  lemma SectionsBack(c: Contract, l: Leaves)
    requires ValidSections(c, l)
    ensures ReadSections(Dump(c), l) == Some(c) <==> PrintableRefs(c, l)
  {
    hide ReadSections, ContractJson, ReadList, DumpList, PrintableCredential;
    ListsDecide(c, DumpList(c.inputs, DumpInput), DumpList(c.outputs, DumpOutput), l);
    InputsBack(c, l);
    OutputsBack(c, l);
  }

  lemma InputsBack(c: Contract, l: Leaves)
    requires ValidSections(c, l)
    ensures ReadList(Some(DumpList(c.inputs, DumpInput)), x => ReadInput(x, l), MAX_INPUTS) == Some(c.inputs) <==>
            forall i | 0 <= i < |c.inputs| :: PrintableCredential(c.inputs[i].target.credential, l)
    ensures ReadList(Some(DumpList(c.inputs, WireInput)), x => ReadInput(x, l), MAX_INPUTS) == Some(c.inputs)
  {
    hide PrintableCredential, ReadInput, InputJson, ReadList, DumpList, ReadCredential, DumpCredential, WireCredential;
    var read := (x: Json) => ReadInput(x, l);
    ListBack(c.inputs, read, DumpInput, MAX_INPUTS);
    ListBack(c.inputs, read, WireInput, MAX_INPUTS);
    forall i | 0 <= i < |c.inputs|
      ensures read(DumpInput(c.inputs[i])) == Some(c.inputs[i]) <==>
              PrintableCredential(c.inputs[i].target.credential, l)
      ensures read(WireInput(c.inputs[i])) == Some(c.inputs[i])
    {
      var credential := c.inputs[i].target.credential;
      InputBack(c.inputs[i], DumpCredential(credential), l);
      InputBack(c.inputs[i], WireCredential(credential), l);
      CredentialBack(credential, l);
      WireCredentialBack(credential, l);
    }
  }

  lemma OutputsBack(c: Contract, l: Leaves)
    requires ValidSections(c, l)
    ensures ReadList(Some(DumpList(c.outputs, DumpOutput)), x => ReadOutput(x, l), MAX_OUTPUTS) == Some(c.outputs) <==>
            forall i | 0 <= i < |c.outputs| :: PrintableCredential(c.outputs[i].target.credential, l)
    ensures ReadList(Some(DumpList(c.outputs, WireOutput)), x => ReadOutput(x, l), MAX_OUTPUTS) == Some(c.outputs)
  {
    hide PrintableCredential, ReadOutput, OutputJson, ReadList, DumpList, ReadCredential, DumpCredential,
         WireCredential;
    var read := (x: Json) => ReadOutput(x, l);
    ListBack(c.outputs, read, DumpOutput, MAX_OUTPUTS);
    ListBack(c.outputs, read, WireOutput, MAX_OUTPUTS);
    forall i | 0 <= i < |c.outputs|
      ensures read(DumpOutput(c.outputs[i])) == Some(c.outputs[i]) <==>
              PrintableCredential(c.outputs[i].target.credential, l)
      ensures read(WireOutput(c.outputs[i])) == Some(c.outputs[i])
    {
      var credential := c.outputs[i].target.credential;
      OutputBack(c.outputs[i], DumpCredential(credential), l);
      OutputBack(c.outputs[i], WireCredential(credential), l);
      CredentialBack(credential, l);
      WireCredentialBack(credential, l);
    }
  }

  /** A validated contract survives its own dump exactly when all its references are printable. */
  lemma ContractBack(c: Contract, l: Leaves, params: ParamsReader)
    requires ValidContract(c, l, params)
    ensures Validate(Dump(c), l, params) == Some(c) <==> PrintableRefs(c, l)
  {
    hide PrintableRefs, ValidSections, ReadSections, Distinct, ContractJson, DumpList;
    ContractFields(c, DumpList(c.inputs, DumpInput), DumpList(c.outputs, DumpOutput));
    SectionsBack(c, l);
    if ReadSections(Dump(c), l).Some? { ParametersAsCame(Dump(c), l); }
  }

  /** Every validated contract is what some message validates to. */
  lemma WireBack(c: Contract, l: Leaves, params: ParamsReader)
    requires ValidContract(c, l, params)
    ensures Validate(Wire(c), l, params) == Some(c)
  {
    hide ValidSections, ReadSections, Distinct, ContractJson, DumpList, ReadList;
    ListsDecide(c, DumpList(c.inputs, WireInput), DumpList(c.outputs, WireOutput), l);
    InputsBack(c, l);
    OutputsBack(c, l);
  }

  lemma ParametersAsCame(j: Json, l: Leaves)
    requires ReadSections(j, l).Some?
    ensures Field(j, "parameters") == Some(ReadSections(j, l).value.parameters)
  {
    hide ReadEnvelope, ReadIdentity, ReadReferences, ReadService, ReadCallback, ReadInput, ReadOutput, ReadList;
    hide HasKeys, Field, SECTIONS;
  }

  /** A contract read with its parameters opaque, dumped, and read with typed parameters is what
      typed reading makes of the original message, refusals included, when its references are
      printable; and of a message that typed reading accepts, only then. */
  lemma OpaqueThenTyped(j: Json, l: Leaves, params: ParamsReader)
    requires l.Stable() && Validate(j, l, OpaqueParams).Some?
    ensures var c := Validate(j, l, OpaqueParams).value;
      && (PrintableRefs(c, l) ==> Validate(Dump(c), l, params) == Validate(j, l, params))
      && (Validate(j, l, params).Some? && Validate(Dump(c), l, params) == Validate(j, l, params) ==>
          PrintableRefs(c, l))
  {
    hide PrintableRefs, ValidSections, ReadSections, Distinct, ContractJson, DumpList;
    var c, raw := Validate(j, l, OpaqueParams).value, ReadSections(j, l).value;
    SectionsAreValid(j, l);
    assert OpaqueParams(raw.parameters) == Some(c.parameters);
    assert c == raw;
    SectionsBack(c, l);
    if Validate(j, l, params).Some? && Validate(Dump(c), l, params) == Validate(j, l, params) {
      ContractFields(c, DumpList(c.inputs, DumpInput), DumpList(c.outputs, DumpOutput));
      ParametersAsCame(Dump(c), l);
      SameButParameters(ReadSections(Dump(c), l).value, c, Validate(j, l, params).value.parameters);
    }
  }

  lemma SameButParameters(a: Contract, b: Contract, p: Json)
    requires a.(parameters := p) == b.(parameters := p) && a.parameters == b.parameters
    ensures a == b
  {
  }
}
