/** When a run gets to its end: with ports that do their part, exactly when its URIs are authorized. */
module Progress {
  import opened Outcomes
  import opened Json
  import opened Security
  import opened Contracts
  import opened Readouts
  import opened Ports
  import opened Pipeline
  import opened EffectOrder
  import opened Verdicts
  import opened Ownership

  /** The backend answers with bytes for every output and a readout of the contract. */
  ghost predicate Delivers(env: Env, c: Contract, r: Reply<ComputeResult>) {
    && r.Done?
    && (forall role | role in OutputRoles(c) :: role in r.value.byRole)
    && exists x :: ExplainedBy(r.value.byRole, c, env.reader, x)
  }

  /** Asked about the contract, no port but the authorizer refuses or crashes. */
  ghost predicate Willing(env: Env, c: Contract) {
    var p := env.ports;
    && (forall h, ref | Refers(c, ref) :: p.resolve(h, ref).Done?)
    && (forall h, source, creds | source in c.inputs :: p.read(h, source, creds).Done?)
    && (forall h :: p.now(h).Done?)
    && (forall h, inputs, time :: Delivers(env, c, p.compute(h, inputs, c.parameters, ContextOf(c, time))))
    && (forall h, sink, payload, creds | sink in c.outputs :: p.write(h, sink, payload, creds).reply.Done?)
    && (forall h, notice :: p.notify(h, c.callback, notice).Done?)
  }

  lemma WillingAnswers(env: Env, h: History, c: Contract, e: Event)
    requires Willing(env, c) && Genuine(env.ports, h, c, e) && !e.DidAuthorize?
    requires ValidSections(c, env.leaves) && |c.envelope.requestId| == 36
    ensures e.Succeeded()
    ensures e.DidCompute? ==>
      && Gate(e.result.value.byRole, e.context, env.reader).Ok?
      && forall role | role in OutputRoles(c) :: role in e.result.value.byRole
  {
    hide Gate, ValidSections, ContextOf, Refers, ExplainedBy;
    if e.DidCompute? {
      var time :| e.context == ContextOf(c, time);
      assert Delivers(env, c, e.result);
      GateExactly(e.result.value.byRole, c, time, env.reader, env.leaves);
    }
  }

  lemma NothingLacked(env: Env, h: History, c: Contract, seg: History, out: Outcome<()>)
    requires Willing(env, c) && AllGenuine(env.ports, h, c, seg)
    requires ValidSections(c, env.leaves) && |c.envelope.requestId| == 36
    ensures !Lacked(env, c, seg, out) && !GateRefused(env, seg, out)
  {
    hide Genuine, Willing, Gate, ValidSections;
    forall i: nat | i < |seg| && seg[i].DidCompute?
      ensures seg[i].result.Done?
      ensures Gate(seg[i].result.value.byRole, seg[i].context, env.reader).Ok?
      ensures forall role | role in OutputRoles(c) :: role in seg[i].result.value.byRole
    {
      WillingAnswers(env, h + seg[..i], c, seg[i]);
    }
    forall k: nat | k < |c.outputs| && k < |seg| ensures !LackedAt(env, c, seg, out, k) {
      assert OutputRoles(c)[k] in OutputRoles(c);
    }
  }

  /** The authorization calls of a run whose authorization step went well. */
  lemma AuthorizedCalls(env: Env, h: History, c: Contract, i: nat)
    requires AuthorizeContract(env, h, c).out.Ok?
    requires i < |Process(env, h, c).seg| && Process(env, h, c).seg[i].DidAuthorize?
    ensures Process(env, h, c).seg[i].Succeeded()
  {
    hide AuthorizeContract, ResolveContract, Loading, ComputeContract, Saving, SuccessPayload;
    var seg, auth := Process(env, h, c).seg, AuthorizeContract(env, h, c).seg;
    assert auth <= seg;
    ProcessOrder(env, h, c);
    AuthorizeOrder(env, h, c);
    AuthorizationsFirst(c);
    AuthorizedLength(c);
    hide Process, Plan, UpToAuthorized, Uris;
    assert MoveOf(seg[i]) == Plan(c)[i];
    assert seg[i] == auth[i];
  }

  lemma NotDisallowed(env: Env, h: History, c: Contract, seg: History, out: Outcome<()>)
    requires AuthorizeContract(env, h, c).out.Ok? && !out.Ok?
    ensures !Disallowed(env, c, seg, out)
  {
    AuthorizeOrder(env, h, c);
    hide AuthorizeContract, CheckScheme, Uris;
  }

  /** A run is never stuck: with willing ports, a validated contract is processed to success exactly
      when its authorization step goes well. */
  lemma WillingRunsSucceed(env: Env, h: History, c: Contract)
    requires Willing(env, c) && ValidSections(c, env.leaves) && |c.envelope.requestId| == 36
    ensures Process(env, h, c).out.Ok? <==> AuthorizeContract(env, h, c).out.Ok?
  {
    RefusedStops(env, h, c);
    hide Process, AuthorizeContract, Genuine, Willing, ValidSections, Disallowed, GateRefused, Lacked;
    if AuthorizeContract(env, h, c).out.Ok? && !Process(env, h, c).out.Ok? {
      var seg, out := Process(env, h, c).seg, Process(env, h, c).out.Failed<()>();
      RepliesAreThePorts(env, h, c);
      FailureHasAReason(env, h, c);
      NotDisallowed(env, h, c, seg, out);
      NothingLacked(env, h, c, seg, out);
      var last := |seg| - 1;
      if seg[last].DidAuthorize? {
        AuthorizedCalls(env, h, c, last);
      } else {
        WillingAnswers(env, h + seg[..last], c, seg[last]);
      }
      assert false;
    }
  }

  // ---------------------------------------------------------------- with the tenant policy as authorizer

  /** The allowlist and the policy both let the URI pass. */
  predicate Admissible(env: Env, policy: TenantPrefixPolicy, identity: Identity, uri: string) {
    && CheckScheme(env.allowed, uri, env.leaves.brackets).Ok?
    && policy.Authorize(uri, identity, env.leaves.brackets).Ok?
  }

  lemma {:induction false} AuthorizingExactly(env: Env, policy: TenantPrefixPolicy, h: History, uris: seq<string>,
                                              identity: Identity, i: nat)
    requires UsesPolicy(env, policy) && i <= |uris|
    ensures Authorizing(env, h, uris, identity, i).out.Ok? <==>
            forall k | i <= k < |uris| :: Admissible(env, policy, identity, uris[k])
    decreases |uris| - i
  {
    hide CheckScheme, TenantPrefixPolicy.Authorize;
    if i < |uris| {
      var event := DidAuthorize(uris[i], identity, env.ports.authorize(h, uris[i], identity));
      AuthorizingExactly(env, policy, h + [event], uris, identity, i + 1);
      assert event.allowed == PolicyReply(policy.Authorize(uris[i], identity, env.leaves.brackets));
    }
  }

  lemma AuthorizeExactly(env: Env, policy: TenantPrefixPolicy, h: History, c: Contract)
    requires UsesPolicy(env, policy)
    ensures AuthorizeContract(env, h, c).out.Ok? <==>
            forall uri | uri in Uris(c) :: Admissible(env, policy, c.identity, uri)
  {
    hide Authorizing, Admissible, UsesPolicy;
    AuthorizingExactly(env, policy, h, InputUris(c), c.identity, 0);
    var a := Authorizing(env, h, InputUris(c), c.identity, 0);
    AuthorizingExactly(env, policy, h + a.seg, OutputUris(c), c.identity, 0);
    if forall uri | uri in Uris(c) :: Admissible(env, policy, c.identity, uri) {
      forall k | 0 <= k < |InputUris(c)| ensures Admissible(env, policy, c.identity, InputUris(c)[k]) {
        assert InputUris(c)[k] == Uris(c)[k] && Uris(c)[k] in Uris(c);
      }
      forall k | 0 <= k < |OutputUris(c)| ensures Admissible(env, policy, c.identity, OutputUris(c)[k]) {
        assert OutputUris(c)[k] == Uris(c)[|InputUris(c)| + k] && Uris(c)[|InputUris(c)| + k] in Uris(c);
      }
    }
  }

  /** Over whole runs: under the tenant policy and with willing ports, an admitted message ends in
      success exactly when the allowlist and the policy let every URI of its contract pass. */
  lemma PolicyDecidesSuccess(env: Env, policy: TenantPrefixPolicy, h: History, raw: Bytes)
    requires Admit(env, raw).out.Ok? && env.leaves.Stable() && UsesPolicy(env, policy)
    requires Willing(env, Admit(env, raw).out.value)
    ensures var c := Admit(env, raw).out.value;
      FullPipeline(env, h, raw).result.Success? <==>
        forall uri | uri in Uris(c) :: Admissible(env, policy, c.identity, uri)
  {
    hide *;
    AdmittedSections(env, raw);
    RunIsProcessed(env, h, raw);
    var c := Admit(env, raw).out.value;
    WillingRunsSucceed(env, h, c);
    AuthorizeExactly(env, policy, h, c);
  }
}
