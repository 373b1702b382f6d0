/** The readout document, the run identity a backend is given, and the gate between them. */
module Readouts {
  import opened Outcomes
  import opened Duplicates
  import opened Dicts
  import opened Json
  import opened Contracts

  const READOUT_ROLE := "model_readout"
  const MAX_ARTIFACTS := MAX_SERVICE_OUTPUTS
  const MAX_FINDINGS := 50
  const MAX_NARRATIVE := 20

  datatype ReadoutRequest =
    ReadoutRequest(requestId: string, resultId: string, parameterId: string, tenantId: string, origin: string)
  datatype ReadoutService = ReadoutService(name: string, version: string)

  /** The fields of a readout that its cross-field validators and the runner look at. */
  datatype Readout = Readout(request: ReadoutRequest, service: ReadoutService, timezone: bool,
                             artifactRoles: seq<string>, findingIds: seq<string>, narrative: seq<string>)

  /** JSON bytes to a readout whose single fields satisfy the schema. */
  type ReadoutReader = Bytes -> Option<Readout>

  predicate ValidReadout(r: Readout) {
    && r.timezone
    && 1 <= |r.artifactRoles| <= MAX_ARTIFACTS && Distinct(r.artifactRoles)
    && |r.findingIds| <= MAX_FINDINGS && Distinct(r.findingIds)
    && |r.narrative| <= MAX_NARRATIVE && forall step | step in r.narrative :: step in r.findingIds
  }

  function ReadReadout(payload: Bytes, reader: ReadoutReader): Option<Readout> {
    match reader(payload)
    case Some(r) => if ValidReadout(r) then Some(r) else None
    case None => None
  }

  datatype ComputeContext = ComputeContext(requestId: string, resultId: string, parameterId: string, tenantId: string,
                                           origin: string, serviceName: string, serviceVersion: string,
                                           generatedAt: string, outputUris: Dict<string>)
  {
    function ArtifactUri(role: string): Outcome<string> {
      match Get(outputUris, role)
      case Some(uri) => Ok(uri)
      case None => Typed(UnknownOutputRole)
    }

    /** Building either block validates it again; a refusal would not be a typed error. */
    function Request(): Outcome<ReadoutRequest> {
      if Long(requestId, 64) && Long(resultId, 128) && Long(parameterId, 128) && IsTenant(tenantId) && origin in ORIGINS
      then Ok(ReadoutRequest(requestId, resultId, parameterId, tenantId, origin))
      else Escaped(BadValue)
    }

    function Service(): Outcome<ReadoutService> {
      if IsServiceName(serviceName) && IsSemverText(serviceVersion)
      then Ok(ReadoutService(serviceName, serviceVersion))
      else Escaped(BadValue)
    }
  }

  function Destinations(outputs: seq<OutputSpec>): (pairs: seq<(string, string)>)
    ensures |pairs| == |outputs|
    ensures forall i | 0 <= i < |pairs| :: pairs[i] == (outputs[i].target.role, outputs[i].target.uri)
  {
    seq(|outputs|, i requires 0 <= i < |outputs| => (outputs[i].target.role, outputs[i].target.uri))
  }

  /** `ComputeContext.from_contract`. */
  function ContextOf(c: Contract, generatedAt: string): ComputeContext {
    ComputeContext(c.envelope.requestId, c.references.resultId, c.references.parameterId, c.identity.tenantId,
                   c.envelope.origin, c.service.name, c.service.version, generatedAt, DictOf(Destinations(c.outputs)))
  }

  /** The constraints of the blocks were copied from the contract: for a validated contract the
      projection never raises, and gives the contract's own ids. */
  lemma BlocksNeverRaise(c: Contract, l: Leaves, generatedAt: string)
    requires ValidSections(c, l) && |c.envelope.requestId| == 36
    ensures
      var x := ContextOf(c, generatedAt);
      && x.Request() == Ok(ReadoutRequest(c.envelope.requestId, c.references.resultId, c.references.parameterId,
                                          c.identity.tenantId, c.envelope.origin))
      && x.Service() == Ok(ReadoutService(c.service.name, c.service.version))
  {
  }

  /** The destination a backend is told for a role is the one its output is written to. */
  lemma ContextUris(c: Contract, generatedAt: string, i: nat)
    requires i < |c.outputs| && Distinct(OutputRoles(c))
    ensures ContextOf(c, generatedAt).ArtifactUri(c.outputs[i].target.role) == Ok(c.outputs[i].target.uri)
  {
    var pairs := Destinations(c.outputs);
    assert Keys(pairs) == OutputRoles(c);
    DictOfDistinct(pairs);
    GetAt(pairs, i);
  }

  /** `validate_readout`: the step between computing and writing. */
  function Gate(byRole: map<string, Bytes>, context: ComputeContext, reader: ReadoutReader): Outcome<Readout> {
    if READOUT_ROLE !in byRole then Typed(MissingReadout)
    else match ReadReadout(byRole[READOUT_ROLE], reader)
      case None => Typed(InvalidReadout)
      case Some(readout) => CheckIdentity(readout, context)
  }

  function CheckIdentity(readout: Readout, context: ComputeContext): Outcome<Readout> {
    var request, service := context.Request(), context.Service();
    if !request.Ok? then request.Failed()
    else if !service.Ok? then service.Failed()
    else if (readout.request, readout.service) != (request.value, service.value) then Typed(ReadoutMismatch)
    else Ok(readout)
  }

  /** A readout of the contract: there, valid, and about this contract. */
  predicate ExplainedBy(byRole: map<string, Bytes>, c: Contract, reader: ReadoutReader, r: Readout) {
    && READOUT_ROLE in byRole && reader(byRole[READOUT_ROLE]) == Some(r) && ValidReadout(r)
    && r.request == ReadoutRequest(c.envelope.requestId, c.references.resultId, c.references.parameterId,
                                   c.identity.tenantId, c.envelope.origin)
    && r.service == ReadoutService(c.service.name, c.service.version)
  }

  /** What passing the gate says. */
  lemma GateSound(byRole: map<string, Bytes>, c: Contract, generatedAt: string, reader: ReadoutReader)
    requires Gate(byRole, ContextOf(c, generatedAt), reader).Ok?
    ensures ExplainedBy(byRole, c, reader, Gate(byRole, ContextOf(c, generatedAt), reader).value)
  {
  }

  /** For a validated contract the gate passes exactly the results with a readout of the contract. */
  lemma GateExactly(byRole: map<string, Bytes>, c: Contract, generatedAt: string, reader: ReadoutReader, l: Leaves)
    requires ValidSections(c, l) && |c.envelope.requestId| == 36
    ensures Gate(byRole, ContextOf(c, generatedAt), reader).Ok? <==> exists r :: ExplainedBy(byRole, c, reader, r)
  {
    BlocksNeverRaise(c, l, generatedAt);
    if Gate(byRole, ContextOf(c, generatedAt), reader).Ok? { GateSound(byRole, c, generatedAt, reader); }
    hide ContextOf, ValidSections, ComputeContext.Request, ComputeContext.Service, ValidReadout;
  }
}
