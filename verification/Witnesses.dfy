/** Runs that do go through: for every validated contract a deployment whose ports do their part, over
    an in-memory store, and the contracts on which redelivery then fails to settle. */
module Witnesses {
  import opened Outcomes
  import opened Text
  import opened Dicts
  import opened Json
  import opened Urls
  import opened Security
  import opened Contracts
  import opened Readouts
  import opened Ports
  import opened Pipeline
  import opened EffectOrder
  import opened Redelivery
  import opened Verdicts
  import opened Progress
  import Addressing
  import Deployment
  import Ownership
  import Storage
  import Totality

  // ---------------------------------------------------------------- a deployment for a contract

  /** The contracts some deployment admits and authorizes: validated, with a readout declared where the
      protocol wants one, and with URIs the library can read. */
  ghost predicate Servable(c: Contract, l: Leaves, params: ParamsReader) {
    && l.Stable() && ValidContract(c, l, params)
    && (c.envelope.version == READOUT_PROTOCOL_VERSION ==> READOUT_ROLE in OutputRoles(c))
    && forall uri | uri in Uris(c) :: ParseUri(uri, l.brackets).Ok?
  }

  function ReadoutOf(c: Contract): Readout {
    Readout(ReadoutRequest(c.envelope.requestId, c.references.resultId, c.references.parameterId,
                           c.identity.tenantId, c.envelope.origin),
            ReadoutService(c.service.name, c.service.version), true, [READOUT_ROLE], [], [])
  }

  /** A backend that fills every output by its role. */
  function BackendOf(c: Contract, fill: (Dict<Bytes>, string) -> Bytes): Backend {
    (inputs, parameters, context) =>
      ComputeResult(map role | role in RoleSet(OutputRoles(c)) + {READOUT_ROLE} :: fill(inputs, role), map[])
  }

  function SchemesOf(c: Contract, brackets: BracketRule): set<string> {
    set uri | uri in Uris(c) && ParseUri(uri, brackets).Ok? :: ParseUri(uri, brackets).value.scheme
  }

  function RoutesOf(c: Contract): set<string> { set uri | uri in Uris(c) :: Addressing.SchemeOf(uri) }

  function PortsOf(c: Contract, s0: Store, backend: Backend, time: string): Ports {
    Ports(raw => Done(Wire(c).fields),
          (h, uri, identity) => Done(()),
          (h, ref) => Done(NO_CREDENTIALS),
          (h, source: InputSpec, creds) => Storage.MemRead(Replay(Totality.RAW, s0, h), RoutesOf(c), source.target.uri),
          h => Done(time),
          (h, inputs, parameters, context) => Done(backend(inputs, parameters, context)),
          (h, sink, payload, creds) => Totality.MemWriteReply(RoutesOf(c), sink, payload),
          (h, callback, notice) => Done(WebhookAck(200, "")),
          (h, job, bytes, requestId) => Done(job))
  }

  function EnvOf(c: Contract, l: Leaves, params: ParamsReader, s0: Store, backend: Backend, time: string): Env {
    Env(l, params, JsonText(j => [], bytes => None), bytes => Some(ReadoutOf(c)),
        {}, RoleSet(InputRoles(c)), RoleSet(OutputRoles(c)), SchemesOf(c, l.brackets),
        PortsOf(c, s0, backend, time), MONOLITH, None)
  }

  /** The store holds every input. */
  ghost predicate Stocked(c: Contract, s: Store) {
    forall uri | uri in InputUris(c) :: uri in s
  }

  lemma {:induction false} ReplayKeeps(m: Medium, s: Store, h: History)
    ensures forall uri | uri in s :: uri in Replay(m, s, h)
  {
    if h != [] { ReplayKeeps(m, s, h[..|h| - 1]); }
  }

  lemma AdmitsTheContract(c: Contract, l: Leaves, params: ParamsReader, s0: Store, backend: Backend, time: string,
                          raw: Bytes)
    requires Servable(c, l, params)
    ensures Admit(EnvOf(c, l, params, s0, backend, time), raw) == Admission(c.envelope.requestId, Ok(c))
  {
    hide Validate, CheckRoles, UnsupportedVersion, ValidContract, Uris, SchemesOf;
    RolesPass(c, l, params, s0, backend, time);
    Deployment.SupportedVersion(c, l, params);
    Deployment.WrittenVersion(c, DumpList(c.inputs, WireInput), DumpList(c.outputs, WireOutput));
    WireBack(c, l, params);
    assert Obj(Wire(c).fields) == Wire(c);
    hide Wire;
  }

  lemma RolesPass(c: Contract, l: Leaves, params: ParamsReader, s0: Store, backend: Backend, time: string)
    requires c.envelope.version == READOUT_PROTOCOL_VERSION ==> READOUT_ROLE in OutputRoles(c)
    ensures CheckRoles(EnvOf(c, l, params, s0, backend, time), c) == Ok(())
  {
    var roles := RoleSet(OutputRoles(c));
    assert READOUT_ROLE in OutputRoles(c) ==> roles + {READOUT_ROLE} == roles;
  }

  lemma DeliversAll(c: Contract, l: Leaves, params: ParamsReader, s0: Store, fill: (Dict<Bytes>, string) -> Bytes,
                    time: string, inputs: Dict<Bytes>, context: ComputeContext)
    ensures var env := EnvOf(c, l, params, s0, BackendOf(c, fill), time);
      Delivers(env, c, Done(BackendOf(c, fill)(inputs, c.parameters, context)))
  {
    var env := EnvOf(c, l, params, s0, BackendOf(c, fill), time);
    var byRole := BackendOf(c, fill)(inputs, c.parameters, context).byRole;
    forall role | role in OutputRoles(c) ensures role in byRole { assert role in RoleSet(OutputRoles(c)); }
    assert ExplainedBy(byRole, c, env.reader, ReadoutOf(c));
  }

  lemma ReadsAnswer(c: Contract, s0: Store, backend: Backend, time: string, h: History, source: InputSpec,
                    creds: Credentials)
    requires Stocked(c, s0) && source in c.inputs
    ensures PortsOf(c, s0, backend, time).read(h, source, creds).Done?
  {
    hide Replay, Totality.RAW;
    ReplayKeeps(Totality.RAW, s0, h);
    var i :| 0 <= i < |c.inputs| && c.inputs[i] == source;
    Declared(c, source.target.uri, InputUris(c), i);
    assert source.target.uri in s0 && source.target.uri in Replay(Totality.RAW, s0, h);
    hide InputUris, RoutesOf;
    assert PortsOf(c, s0, backend, time).read(h, source, creds) ==
           Storage.MemRead(Replay(Totality.RAW, s0, h), RoutesOf(c), source.target.uri);
  }

  lemma WritesAnswer(c: Contract, s0: Store, backend: Backend, time: string, h: History, sink: OutputSpec,
                     payload: Bytes, creds: Credentials)
    requires sink in c.outputs
    ensures PortsOf(c, s0, backend, time).write(h, sink, payload, creds).reply.Done?
  {
    var i :| 0 <= i < |c.outputs| && c.outputs[i] == sink;
    Declared(c, sink.target.uri, OutputUris(c), i);
  }

  lemma OthersAnswer(c: Contract, s0: Store, backend: Backend, time: string)
    ensures var p := PortsOf(c, s0, backend, time);
      && (forall h, ref :: p.resolve(h, ref).Done?) && (forall h :: p.now(h).Done?)
      && (forall h, callback, notice :: p.notify(h, callback, notice).Done?)
      && (forall h, inputs, parameters, context ::
            p.compute(h, inputs, parameters, context) == Done(backend(inputs, parameters, context)))
  {
    hide Storage.MemRead, Totality.MemWriteReply, RoutesOf, Replay;
  }

  lemma IsWilling(c: Contract, l: Leaves, params: ParamsReader, s0: Store, fill: (Dict<Bytes>, string) -> Bytes,
                  time: string)
    requires Stocked(c, s0)
    ensures Willing(EnvOf(c, l, params, s0, BackendOf(c, fill), time), c)
  {
    hide Delivers, BackendOf, PortsOf, Refers, ContextOf, Stocked, SchemesOf, RoleSet;
    var backend := BackendOf(c, fill);
    var env := EnvOf(c, l, params, s0, backend, time);
    OthersAnswer(c, s0, backend, time);
    forall h, source, creds | source in c.inputs ensures env.ports.read(h, source, creds).Done? {
      ReadsAnswer(c, s0, backend, time, h, source, creds);
    }
    forall h, sink, payload, creds | sink in c.outputs ensures env.ports.write(h, sink, payload, creds).reply.Done? {
      WritesAnswer(c, s0, backend, time, h, sink, payload, creds);
    }
    forall h, inputs, now
      ensures Delivers(env, c, env.ports.compute(h, inputs, c.parameters, ContextOf(c, now)))
    {
      DeliversAll(c, l, params, s0, fill, time, inputs, ContextOf(c, now));
    }
  }

  lemma Declared(c: Contract, uri: string, uris: seq<string>, i: nat)
    requires uris == InputUris(c) || uris == OutputUris(c)
    requires i < |uris| && uris[i] == uri
    ensures uri in uris && uri in Uris(c) && Addressing.SchemeOf(uri) in RoutesOf(c)
  {
    assert uri in uris;
    hide Addressing.SchemeOf;
  }

  lemma IsFaithful(c: Contract, l: Leaves, params: ParamsReader, s0: Store, backend: Backend, time: string)
    ensures Faithful(EnvOf(c, l, params, s0, backend, time).ports, Totality.RAW, s0)
    ensures Deterministic(EnvOf(c, l, params, s0, backend, time).ports, backend, time)
  {
    var p := EnvOf(c, l, params, s0, backend, time).ports;
    hide Replay, Addressing.SchemeOf;
    Totality.InMemoryIsFaithful(p, RoutesOf(c), s0);
  }

  lemma {:induction false} AuthorizingPasses(env: Env, h: History, uris: seq<string>, identity: Identity, i: nat)
    requires i <= |uris| && forall uri | uri in uris :: CheckScheme(env.allowed, uri, env.leaves.brackets).Ok?
    requires forall g, uri, who :: env.ports.authorize(g, uri, who).Done?
    ensures Authorizing(env, h, uris, identity, i).out.Ok?
    decreases |uris| - i
  {
    hide CheckScheme;
    if i < |uris| {
      assert uris[i] in uris;
      var event := DidAuthorize(uris[i], identity, env.ports.authorize(h, uris[i], identity));
      AuthorizingPasses(env, h + [event], uris, identity, i + 1);
    }
  }

  lemma AuthorizePasses(c: Contract, l: Leaves, params: ParamsReader, s0: Store, backend: Backend, time: string,
                        h: History)
    requires Servable(c, l, params)
    ensures AuthorizeContract(EnvOf(c, l, params, s0, backend, time), h, c).out.Ok?
  {
    var env := EnvOf(c, l, params, s0, backend, time);
    forall uri | uri in Uris(c) ensures CheckScheme(env.allowed, uri, env.leaves.brackets).Ok? {
      assert ParseUri(uri, l.brackets).value.scheme in SchemesOf(c, l.brackets);
    }
    assert forall uri :: uri in InputUris(c) || uri in OutputUris(c) ==> uri in Uris(c);
    hide Authorizing, CheckScheme, Uris, ValidContract, SchemesOf;
    AuthorizingPasses(env, h, InputUris(c), c.identity, 0);
    AuthorizingPasses(env, h + Authorizing(env, h, InputUris(c), c.identity, 0).seg, OutputUris(c), c.identity, 0);
  }

  lemma StableEnv(c: Contract, l: Leaves, params: ParamsReader, s0: Store, backend: Backend, time: string)
    requires Servable(c, l, params)
    ensures EnvOf(c, l, params, s0, backend, time).leaves == l && l.Stable()
  {
  }

  /** Every servable contract is served: its deployment meets what progress and redelivery ask of
      ports, and each of its runs succeeds. */
  lemma ServedWhole(c: Contract, l: Leaves, params: ParamsReader, s0: Store, fill: (Dict<Bytes>, string) -> Bytes,
                    time: string, h: History, raw: Bytes)
    requires Servable(c, l, params) && Stocked(c, s0)
    ensures var env := EnvOf(c, l, params, s0, BackendOf(c, fill), time);
      && Admit(env, raw).out == Ok(c) && env.leaves.Stable() && Willing(env, c)
      && Faithful(env.ports, Totality.RAW, s0) && Deterministic(env.ports, BackendOf(c, fill), time)
      && FullPipeline(env, h, raw).result.Success?
  {
    hide *;
    StableEnv(c, l, params, s0, BackendOf(c, fill), time);
    var backend := BackendOf(c, fill);
    var env := EnvOf(c, l, params, s0, backend, time);
    AdmitsTheContract(c, l, params, s0, backend, time, raw);
    AdmittedSections(env, raw);
    IsWilling(c, l, params, s0, fill, time);
    IsFaithful(c, l, params, s0, backend, time);
    AuthorizePasses(c, l, params, s0, backend, time, h);
    RunIsProcessed(env, h, raw);
    WillingRunsSucceed(env, h, c);
  }

  lemma OnlyServable(env: Env, h: History, raw: Bytes, c: Contract)
    requires env.leaves.Stable() && StableParams(env.params)
    requires Admit(env, raw).out == Ok(c) && AuthorizeContract(env, h, c).out.Ok?
    ensures Servable(c, env.leaves, env.params)
  {
    hide Admit, AuthorizeContract, ValidContract, ParseUri, Uris;
    Deployment.AdmittedIsValid(env, raw);
    AuthorizeOrder(env, h, c);
    forall uri | uri in Uris(c) ensures ParseUri(uri, env.leaves.brackets).Ok? {
      assert CheckScheme(env.allowed, uri, env.leaves.brackets).Ok?;
    }
    assert c.envelope.version == READOUT_PROTOCOL_VERSION ==> READOUT_ROLE in RoleSet(OutputRoles(c));
  }

  /** A run of the message passes authorization. */
  ghost predicate Passes(env: Env, h: History, raw: Bytes, c: Contract, l: Leaves, params: ParamsReader) {
    env.leaves == l && env.params == params && Admit(env, raw).out == Ok(c) && AuthorizeContract(env, h, c).out.Ok?
  }

  /** Servable are exactly the contracts that some deployment admits and authorizes. */
  lemma ServableExactly(c: Contract, l: Leaves, params: ParamsReader)
    requires l.Stable() && StableParams(params)
    ensures Servable(c, l, params) <==> exists env: Env, h, raw :: Passes(env, h, raw, c, l, params)
  {
    hide Admit, AuthorizeContract, Servable;
    if env: Env, h, raw :| Passes(env, h, raw, c, l, params) {
      OnlyServable(env, h, raw, c);
    }
    if Servable(c, l, params) {
      var backend: Backend := (inputs, parameters, context) => ComputeResult(map[], map[]);
      AdmitsTheContract(c, l, params, map[], backend, "", []);
      AuthorizePasses(c, l, params, map[], backend, "", []);
      assert Passes(EnvOf(c, l, params, map[], backend, ""), [], [], c, l, params);
    }
  }

  // ---------------------------------------------------------------- and such contracts exist

  function SampleLeaves(brackets: BracketRule): Leaves {
    Leaves(j => if TextOf(j).Some? && |TextOf(j).value| == 36 then TextOf(j) else None, TextOf, TextOf,
           j => match TextOf(j) case Some(s) => Some(HttpUrl("https", s)) case None => None,
           j => Some(Hints("json", j)), brackets)
  }

  function TextOf(j: Json): Option<string> { if j.Str? then Some(j.s) else None }

  function SampleTarget(role: string, uri: string): Target {
    Target(role, uri, "json", Hints("json", Null), "none", None)
  }

  /** One input and two outputs, at the given URIs. */
  function SampleContract(source: string, readout: string, table: string): Contract {
    Contract(Envelope("1.1", PLACEHOLDER_REQUEST_ID, "", "web"), Identity("1", "t"), References("p", "r"),
             Service("s", "1.0.0"),
             [InputSpec(SampleTarget("data", source))],
             [OutputSpec(SampleTarget(READOUT_ROLE, readout), "overwrite"),
              OutputSpec(SampleTarget("table", table), "overwrite")],
             Callback("", "jwt_hs256"), Obj(map[]))
  }

  lemma SampleVersion()
    ensures IsSemver("1.0.0")
  {
    var parts := ["1", "0", "0"];
    assert Join(parts[1..][1..], '.') == "0";
    assert Join(parts[1..], '.') == "0.0";
    assert Join(parts, '.') == "1.0.0";
    SplitJoin(parts, '.');
  }

  lemma SampleRoles()
    ensures IsRole("data") && IsRole("table") && IsRole(READOUT_ROLE)
  {
  }

  lemma SampleTargets(role: string, uri: string, brackets: BracketRule)
    requires IsRole(role)
    ensures ValidTarget(SampleTarget(role, uri), SampleLeaves(brackets))
  {
    hide IsRole;
  }

  lemma SampleSpecs(source: string, readout: string, table: string, brackets: BracketRule)
    ensures var c, l := SampleContract(source, readout, table), SampleLeaves(brackets);
      && |c.inputs| == 1 && ValidInput(c.inputs[0], l)
      && |c.outputs| == 2 && ValidOutput(c.outputs[0], l) && ValidOutput(c.outputs[1], l)
  {
    SampleRoles();
    hide ValidTarget, IsRole, READOUT_ROLE, SampleLeaves, SampleTarget;
    SampleTargets("data", source, brackets);
    SampleTargets(READOUT_ROLE, readout, brackets);
    SampleTargets("table", table, brackets);
  }

  lemma SampleHeads(brackets: BracketRule)
    ensures var c, l := SampleContract("", "", ""), SampleLeaves(brackets);
      && ValidEnvelope(c.envelope, l) && ValidIdentity(c.identity) && ValidReferences(c.references)
      && ValidService(c.service) && ValidCallback(c.callback, l)
  {
    hide IsSemver;
    SampleVersion();
  }

  lemma SampleSections(source: string, readout: string, table: string, brackets: BracketRule)
    ensures ValidSections(SampleContract(source, readout, table), SampleLeaves(brackets))
  {
    hide ValidEnvelope, ValidIdentity, ValidReferences, ValidService, ValidCallback, ValidInput, ValidOutput;
    hide SampleLeaves, SampleTarget;
    SampleHeads(brackets);
    SampleSpecs(source, readout, table, brackets);
  }

  /** Whatever readable URIs it names, the sample is servable. */
  lemma SampleServable(source: string, readout: string, table: string, brackets: BracketRule)
    requires ParseUri(source, brackets).Ok? && ParseUri(readout, brackets).Ok? && ParseUri(table, brackets).Ok?
    ensures Servable(SampleContract(source, readout, table), SampleLeaves(brackets), OpaqueParams)
  {
    hide ParseUri, ValidSections;
    var c := SampleContract(source, readout, table);
    SampleSections(source, readout, table, brackets);
    assert OutputRoles(c)[0] == READOUT_ROLE;
    assert Uris(c) == [source, readout, table];
    assert SampleLeaves(brackets).Stable();
  }

  /** A URI the policy with prefix "p" accepts for user "1" of tenant "t". */
  function SampleUri(host: string): string { "gs" + "://" + host + ("/" + "user_1") }

  const SAMPLE_POLICY := TenantPrefixPolicy("p", true)

  lemma SampleAccepted(host: string, brackets: BracketRule)
    requires PlainSegment(host) && NetlocOk(host, brackets) && "p-t" <= host
    ensures ParseUri(SampleUri(host), brackets) == Ok(ParsedUri("gs", host, "/" + "user_1"))
    ensures SAMPLE_POLICY.Authorize(SampleUri(host), Identity("1", "t"), brackets).Ok?
  {
    assert PlainSegment("user_1");
    hide ParseUri, Segments, PlainSegment, NetlocOk, TenantPrefixPolicy.Authorize;
    ReadBucketUri(host, "user_1", brackets);
    SampleJudged(SampleUri(host), host, brackets);
  }

  lemma SampleJudged(uri: string, host: string, brackets: BracketRule)
    requires ParseUri(uri, brackets) == Ok(ParsedUri("gs", host, "/" + "user_1")) && "p-t" <= host
    requires Segments("/" + "user_1") == ["user_1"]
    ensures SAMPLE_POLICY.Authorize(uri, Identity("1", "t"), brackets).Ok?
  {
    hide ParseUri, Segments;
    assert SAMPLE_POLICY.ExpectedPrefix(Identity("1", "t")) == "p-t";
    assert "user_" + "1" == "user_1";
  }

  function Policed(env: Env, policy: TenantPrefixPolicy): Env {
    env.(ports := env.ports.(authorize :=
      (h, uri, identity) => Ownership.PolicyReply(policy.Authorize(uri, identity, env.leaves.brackets))))
  }

  lemma PolicedAlike(env: Env, policy: TenantPrefixPolicy, c: Contract, raw: Bytes)
    requires Willing(env, c)
    ensures Willing(Policed(env, policy), c) && Ownership.UsesPolicy(Policed(env, policy), policy)
    ensures Admit(Policed(env, policy), raw) == Admit(env, raw)
  {
    hide TenantPrefixPolicy.Authorize, Delivers, Refers, ContextOf, Validate, UnsupportedVersion;
    var other := Policed(env, policy);
    forall r: Reply<ComputeResult> | Delivers(env, c, r) ensures Delivers(other, c, r) {
      SameDelivery(env, other, c, r);
    }
  }

  lemma SameDelivery(env: Env, other: Env, c: Contract, r: Reply<ComputeResult>)
    requires Delivers(env, c, r) && env.reader == other.reader
    ensures Delivers(other, c, r)
  {
  }

  /** So what progress under the tenant policy asks for can be had: here it is, with its success. */
  lemma SomeRunSucceeds(brackets: BracketRule, h: History, raw: Bytes) returns (env: Env, c: Contract)
    ensures Admit(env, raw).out == Ok(c) && env.leaves.Stable()
    ensures Ownership.UsesPolicy(env, SAMPLE_POLICY) && Willing(env, c)
    ensures FullPipeline(env, h, raw).result.Success?
  {
    var source, readout, table := SampleUri("p-t"), SampleUri("p-t-a"), SampleUri("p-t-b");
    SamplesAccepted(brackets);
    hide SampleUri, ParseUri, Admit, FullPipeline, Willing, Servable, EnvOf, BackendOf, Ownership.UsesPolicy, Policed;
    hide TenantPrefixPolicy.Authorize;
    c := SampleContract(source, readout, table);
    var l := SampleLeaves(brackets);
    SampleServable(source, readout, table, brackets);
    var s0: Store := map[source := []];
    var fill: (Dict<Bytes>, string) -> Bytes := (inputs, role) => [];
    assert InputUris(c) == [source];
    ServedWhole(c, l, OpaqueParams, s0, fill, "", h, raw);
    var open := EnvOf(c, l, OpaqueParams, s0, BackendOf(c, fill), "");
    PolicedAlike(open, SAMPLE_POLICY, c, raw);
    env := Policed(open, SAMPLE_POLICY);
    SampleAdmissible(c, l, s0, BackendOf(c, fill), source, readout, table);
    PolicyDecidesSuccess(env, SAMPLE_POLICY, h, raw);
  }

  lemma SamplesAccepted(brackets: BracketRule)
    ensures forall host | host in ["p-t", "p-t-a", "p-t-b"] ::
      && ParseUri(SampleUri(host), brackets).Ok? && ParseUri(SampleUri(host), brackets).value.scheme == "gs"
      && SAMPLE_POLICY.Authorize(SampleUri(host), Identity("1", "t"), brackets).Ok?
  {
    forall host | host in ["p-t", "p-t-a", "p-t-b"]
      ensures PlainSegment(host) && NetlocOk(host, brackets) && "p-t" <= host
    {
    }
    hide ParseUri, SampleUri, TenantPrefixPolicy.Authorize, PlainSegment, NetlocOk;
    forall host | host in ["p-t", "p-t-a", "p-t-b"]
      ensures ParseUri(SampleUri(host), brackets) == Ok(ParsedUri("gs", host, "/" + "user_1"))
      ensures SAMPLE_POLICY.Authorize(SampleUri(host), Identity("1", "t"), brackets).Ok?
    {
      SampleAccepted(host, brackets);
    }
  }

  lemma SampleAdmissible(c: Contract, l: Leaves, s0: Store, backend: Backend, source: string, readout: string,
                         table: string)
    requires c == SampleContract(source, readout, table)
    requires forall uri | uri in [source, readout, table] ::
      ParseUri(uri, l.brackets).Ok? && SAMPLE_POLICY.Authorize(uri, c.identity, l.brackets).Ok?
    ensures var env := Policed(EnvOf(c, l, OpaqueParams, s0, backend, ""), SAMPLE_POLICY);
      env.leaves == l && forall uri | uri in Uris(c) :: Admissible(env, SAMPLE_POLICY, c.identity, uri)
  {
    hide ParseUri, TenantPrefixPolicy.Authorize;
    assert Uris(c) == [source, readout, table];
    forall uri | uri in Uris(c) ensures ParseUri(uri, l.brackets).value.scheme in SchemesOf(c, l.brackets) { }
  }
}
