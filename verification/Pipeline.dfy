/** What one run does, as a function of the history before it: its outcome and the calls it adds. */
module Pipeline {
  import opened Outcomes
  import opened Dicts
  import opened Json
  import opened Security
  import opened SecretRefs
  import opened Contracts
  import opened Readouts
  import opened Ports
  import Registry

  datatype Mode = RECEIVER | WORKER | MONOLITH | SHARED_RECEIVER

  /** A configured runner: contract model, backend roles, allowlist, ports and mode. */
  datatype Env = Env(leaves: Leaves, params: ParamsReader, text: JsonText, reader: ReadoutReader,
                     required: set<string>, optional: set<string>, outputRoles: set<string>,
                     allowed: set<string>, ports: Ports, mode: Mode, workerJob: Option<string>)

  /** How a step ends, and the calls it made. */
  datatype Step<+T> = Step(out: Outcome<T>, seg: History)

  const PLACEHOLDER_REQUEST_ID := "00000000-0000-0000-0000-000000000000"
  const NO_CREDENTIALS := Credentials([], "none")

  // ---------------------------------------------------------------- before any port is called

  /** `validate`: the version pre-check, then the contract model. */
  function ValidateStep(payload: map<string, Json>, l: Leaves, params: ParamsReader): Outcome<Contract> {
    if UnsupportedVersion(payload) then Typed(UnsupportedProtocolVersion)
    else match Validate(Obj(payload), l, params)
      case Some(c) => Ok(c)
      case None => Typed(InvalidContract)
  }

  predicate UnsupportedVersion(payload: map<string, Json>) {
    match Field(Obj(payload), "envelope")
    case Some(Obj(envelope)) =>
      var version := TextAt(Obj(envelope), "protocol_version");
      version.Some? && version.value !in SUPPORTED_VERSIONS
    case _ => false
  }

  function ExpectedOutputRoles(env: Env, c: Contract): set<string> {
    if c.envelope.version != READOUT_PROTOCOL_VERSION then env.outputRoles else env.outputRoles + {READOUT_ROLE}
  }

  function RoleSet(roles: seq<string>): set<string> { set r | r in roles }

  /** `_check_role_compatibility`. */
  function CheckRoles(env: Env, c: Contract): Outcome<()> {
    var inputs, outputs := RoleSet(InputRoles(c)), RoleSet(OutputRoles(c));
    if env.required - inputs != {} then Typed(InvalidContract)
    else if inputs - (env.required + env.optional) != {} then Typed(InvalidContract)
    else if outputs != ExpectedOutputRoles(env, c) then Typed(InvalidContract)
    else Ok(())
  }

  /** Decode and validate; the request id is the placeholder until a contract is there. */
  datatype Admission = Admission(requestId: string, out: Outcome<Contract>)

  function DecodeAndValidate(ports: Ports, raw: Bytes, l: Leaves, params: ParamsReader): Admission {
    match ports.decode(raw).Outcome()
    case Ok(payload) =>
      (match ValidateStep(payload, l, params)
       case Ok(c) => Admission(c.envelope.requestId, Ok(c))
       case Typed(e) => Admission(PLACEHOLDER_REQUEST_ID, Typed(e))
       case Escaped(x) => Admission(PLACEHOLDER_REQUEST_ID, Escaped(x)))
    case Typed(e) => Admission(PLACEHOLDER_REQUEST_ID, Typed(e))
    case Escaped(x) => Admission(PLACEHOLDER_REQUEST_ID, Escaped(x))
  }

  function Admit(env: Env, raw: Bytes): Admission {
    var a := DecodeAndValidate(env.ports, raw, env.leaves, env.params);
    if !a.out.Ok? then a
    else
      var roles := CheckRoles(env, a.out.value);
      if roles.Ok? then a else a.(out := roles.Failed())
  }

  // ---------------------------------------------------------------- the steps with ports

  function InputUris(c: Contract): (uris: seq<string>)
    ensures |uris| == |c.inputs| && forall i | 0 <= i < |uris| :: uris[i] == c.inputs[i].target.uri
  {
    seq(|c.inputs|, i requires 0 <= i < |c.inputs| => c.inputs[i].target.uri)
  }

  function OutputUris(c: Contract): (uris: seq<string>)
    ensures |uris| == |c.outputs| && forall i | 0 <= i < |uris| :: uris[i] == c.outputs[i].target.uri
  {
    seq(|c.outputs|, i requires 0 <= i < |c.outputs| => c.outputs[i].target.uri)
  }

  /** The allowlist and then the authorizer, for every URI from position `i` on. */
  function Authorizing(env: Env, h: History, uris: seq<string>, identity: Identity, i: nat): Step<()>
    requires i <= |uris|
    decreases |uris| - i
  {
    if i == |uris| then Step(Ok(()), [])
    else
      var scheme := CheckScheme(env.allowed, uris[i], env.leaves.brackets);
      if !scheme.Ok? then Step(scheme, [])
      else
        var reply := env.ports.authorize(h, uris[i], identity);
        var event := DidAuthorize(uris[i], identity, reply);
        if !reply.Done? then Step(reply.Outcome(), [event])
        else
          var rest := Authorizing(env, h + [event], uris, identity, i + 1);
          Step(rest.out, [event] + rest.seg)
  }

  datatype Need = Need(role: string, ref: Option<SecretRef>)

  function InputNeeds(c: Contract): (needs: seq<Need>)
    ensures |needs| == |c.inputs|
    ensures forall i | 0 <= i < |needs| :: needs[i] == Need(c.inputs[i].target.role, c.inputs[i].target.credential)
  {
    seq(|c.inputs|, i requires 0 <= i < |c.inputs| => Need(c.inputs[i].target.role, c.inputs[i].target.credential))
  }

  function OutputNeeds(c: Contract): (needs: seq<Need>)
    ensures |needs| == |c.outputs|
    ensures forall i | 0 <= i < |needs| :: needs[i] == Need(c.outputs[i].target.role, c.outputs[i].target.credential)
  {
    seq(|c.outputs|, i requires 0 <= i < |c.outputs| => Need(c.outputs[i].target.role, c.outputs[i].target.credential))
  }

  /** `_resolve_for_specs` from position `i` on, with the dictionary filled so far. */
  function Resolving(env: Env, h: History, needs: seq<Need>, i: nat, acc: Dict<Credentials>): Step<Dict<Credentials>>
    requires i <= |needs|
    decreases |needs| - i
  {
    if i == |needs| then Step(Ok(acc), [])
    else match needs[i].ref
      case None => Resolving(env, h, needs, i + 1, Put(acc, needs[i].role, NO_CREDENTIALS))
      case Some(ref) =>
        var reply := env.ports.resolve(h, ref);
        var event := DidResolve(ref, reply);
        if !reply.Done? then Step(reply.Outcome().Failed(), [event])
        else
          var rest := Resolving(env, h + [event], needs, i + 1, Put(acc, needs[i].role, reply.value));
          Step(rest.out, [event] + rest.seg)
  }

  /** `load_inputs` from position `i` on. */
  function Loading(env: Env, h: History, specs: seq<InputSpec>, credentials: Dict<Credentials>, i: nat,
                   acc: Dict<Bytes>)
    : Step<Dict<Bytes>>
    requires i <= |specs|
    decreases |specs| - i
  {
    if i == |specs| then Step(Ok(acc), [])
    else
      var role, creds := specs[i].target.role, Lookup(credentials, specs[i].target.role);
      if !creds.Ok? then Step(creds.Failed(), [])
      else
        var reply := env.ports.read(h, specs[i], creds.value);
        var event := DidRead(specs[i], creds.value, reply);
        if !reply.Done? then Step(reply.Outcome().Failed(), [event])
        else
          var rest := Loading(env, h + [event], specs, credentials, i + 1, Put(acc, role, reply.value));
          Step(rest.out, [event] + rest.seg)
  }

  function Produced(byRole: map<string, Bytes>, role: string): Outcome<Bytes> {
    if role in byRole then Ok(byRole[role]) else Escaped(MissingKey(role))
  }

  /** `save_outputs` from position `i` on: payload, then credentials, then the write. */
  function Saving(env: Env, h: History, specs: seq<OutputSpec>, credentials: Dict<Credentials>,
                  byRole: map<string, Bytes>, i: nat, acc: Dict<WriteReceipt>): Step<Dict<WriteReceipt>>
    requires i <= |specs|
    decreases |specs| - i
  {
    if i == |specs| then Step(Ok(acc), [])
    else
      var role := specs[i].target.role;
      var payload, creds := Produced(byRole, role), Lookup(credentials, role);
      if !payload.Ok? then Step(payload.Failed(), [])
      else if !creds.Ok? then Step(creds.Failed(), [])
      else
        var written := env.ports.write(h, specs[i], payload.value, creds.value);
        var event := DidWrite(specs[i], payload.value, creds.value, written);
        if !written.reply.Done? then Step(written.reply.Outcome().Failed(), [event])
        else
          var rest := Saving(env, h + [event], specs, credentials, byRole, i + 1, Put(acc, role, written.reply.value));
          Step(rest.out, [event] + rest.seg)
  }

  /** `authorize`: all inputs, then all outputs. */
  function AuthorizeContract(env: Env, h: History, c: Contract): Step<()> {
    var a := Authorizing(env, h, InputUris(c), c.identity, 0);
    if !a.out.Ok? then a
    else
      var b := Authorizing(env, h + a.seg, OutputUris(c), c.identity, 0);
      Step(b.out, a.seg + b.seg)
  }

  datatype Bundle = Bundle(inputs: Dict<Credentials>, outputs: Dict<Credentials>)

  function ResolveContract(env: Env, h: History, c: Contract): Step<Bundle> {
    var a := Resolving(env, h, InputNeeds(c), 0, []);
    if !a.out.Ok? then Step(a.out.Failed(), a.seg)
    else
      var b := Resolving(env, h + a.seg, OutputNeeds(c), 0, []);
      if !b.out.Ok? then Step(b.out.Failed(), a.seg + b.seg)
      else Step(Ok(Bundle(a.out.value, b.out.value)), a.seg + b.seg)
  }

  datatype Computed = Computed(context: ComputeContext, result: ComputeResult)

  /** Stamp, compute, and the readout gate. */
  function ComputeContract(env: Env, h: History, c: Contract, inputs: Dict<Bytes>): Step<Computed> {
    var time := env.ports.now(h);
    var stamp := DidStamp(time);
    if !time.Done? then Step(time.Outcome().Failed(), [stamp])
    else
      var context := ContextOf(c, time.value);
      var reply := env.ports.compute(h + [stamp], inputs, c.parameters, context);
      var event := DidCompute(inputs, c.parameters, context, reply);
      if !reply.Done? then Step(reply.Outcome().Failed(), [stamp, event])
      else
        var gate := Gate(reply.value.byRole, context, env.reader);
        if !gate.Ok? then Step(gate.Failed(), [stamp, event])
        else Step(Ok(Computed(context, reply.value)), [stamp, event])
  }

  datatype Report = Report(receipts: Dict<WriteReceipt>, metadata: map<string, Json>, ack: WebhookAck)

  /** `_build_success_payload`. */
  function SuccessPayload(requestId: string, receipts: Dict<WriteReceipt>,
                          metadata: map<string, Json>): WebhookPayload {
    WebhookPayload(requestId, "ok", receipts, metadata)
  }

  /** Everything after the role check, step by step, stopping at the first that does not end well. */
  function Process(env: Env, h: History, c: Contract): Step<Report> {
    var auth := AuthorizeContract(env, h, c);
    if !auth.out.Ok? then Step(auth.out.Failed(), auth.seg) else
    var s1 := auth.seg;
    var creds := ResolveContract(env, h + s1, c);
    var s2 := s1 + creds.seg;
    if !creds.out.Ok? then Step(creds.out.Failed(), s2) else
    var loaded := Loading(env, h + s2, c.inputs, creds.out.value.inputs, 0, []);
    var s3 := s2 + loaded.seg;
    if !loaded.out.Ok? then Step(loaded.out.Failed(), s3) else
    var computed := ComputeContract(env, h + s3, c, loaded.out.value);
    var s4 := s3 + computed.seg;
    if !computed.out.Ok? then Step(computed.out.Failed(), s4) else
    var result := computed.out.value.result;
    var saved := Saving(env, h + s4, c.outputs, creds.out.value.outputs, result.byRole, 0, []);
    var s5 := s4 + saved.seg;
    if !saved.out.Ok? then Step(saved.out.Failed(), s5) else
    var notice := SuccessPayload(c.envelope.requestId, saved.out.value, result.metadata);
    var ack := env.ports.notify(h + s5, c.callback, notice);
    var s6 := s5 + [DidNotify(c.callback, notice, ack)];
    if !ack.Done? then Step(ack.Outcome().Failed(), s6)
    else Step(Ok(Report(saved.out.value, result.metadata, ack.value)), s6)
  }

  // ---------------------------------------------------------------- whole runs

  /** What `execute` returns, or the exception it lets through. */
  datatype Result =
    | Success(requestId: string, contract: Contract, report: Report)
    | Dispatched(requestId: string, jobId: string)
    | Failure(requestId: string, error: ServiceError)
    | Raised(cause: Escape)

  datatype Run = Run(result: Result, seg: History)

  function Failed(requestId: string, out: Outcome<()>): (r: Result)
    requires !out.Ok?
    ensures r.Failure? || r.Raised?
  {
    match out case Typed(e) => Failure(requestId, e) case Escaped(x) => Raised(x)
  }

  /** `_run_full_pipeline`: the MONOLITH and WORKER branch of `execute`. */
  function FullPipeline(env: Env, h: History, raw: Bytes): Run {
    var a := Admit(env, raw);
    if !a.out.Ok? then Run(Failed(a.requestId, a.out.Failed()), [])
    else
      var s := Process(env, h, a.out.value);
      if s.out.Ok? then Run(Success(a.requestId, a.out.value, s.out.value), s.seg)
      else Run(Failed(a.requestId, s.out.Failed()), s.seg)
  }

  /** The worker gets the validated contract, dumped again. */
  function Dispatching(ports: Ports, h: History, text: JsonText, job: string, c: Contract): Run {
    var bytes, requestId := text.dumps(Dump(c)), c.envelope.requestId;
    var reply := ports.dispatch(h, job, bytes, requestId);
    var event := DidDispatch(job, bytes, requestId, reply);
    if reply.Done? then Run(Dispatched(requestId, reply.value), [event])
    else Run(Failed(requestId, reply.Outcome().Failed()), [event])
  }

  /** `_run_receiver`. */
  function Receiver(env: Env, h: History, raw: Bytes): Run {
    var a := Admit(env, raw);
    if !a.out.Ok? then Run(Failed(a.requestId, a.out.Failed()), [])
    else
      var auth := AuthorizeContract(env, h, a.out.value);
      if !auth.out.Ok? then Run(Failed(a.requestId, auth.out), auth.seg)
      else match env.workerJob
        case None => Run(Raised(BadValue), auth.seg)
        case Some(job) =>
          var d := Dispatching(env.ports, h + auth.seg, env.text, job, a.out.value);
          Run(d.result, auth.seg + d.seg)
  }

  /** `ServiceRunner.execute`. */
  function Execute(env: Env, h: History, raw: Bytes): Run {
    if env.mode == RECEIVER then Receiver(env, h, raw) else FullPipeline(env, h, raw)
  }

  /** `SharedReceiverRunner.execute`: opaque parameters, no role check, the job from the registry. */
  function SharedReceiver(env: Env, registry: Registry.ServiceRegistry, h: History, raw: Bytes): Run {
    var a := DecodeAndValidate(env.ports, raw, env.leaves, OpaqueParams);
    if !a.out.Ok? then Run(Failed(a.requestId, a.out.Failed()), [])
    else
      var c := a.out.value;
      var auth := AuthorizeContract(env, h, c);
      if !auth.out.Ok? then Run(Failed(a.requestId, auth.out), auth.seg)
      else
        var job := Registry.Resolve(registry, c.service.name);
        if !job.Ok? then Run(Failed(a.requestId, job.Failed()), auth.seg)
        else
          var d := Dispatching(env.ports, h + auth.seg, env.text, job.value, c);
          Run(d.result, auth.seg + d.seg)
  }
}
