/** The tenant policy as the authorizer of a run: which objects the run can touch. */
module Ownership {
  import opened Outcomes
  import opened Security
  import opened Addressing
  import opened Contracts
  import opened Ports
  import opened Pipeline
  import EffectOrder

  function PolicyReply(out: Outcome<()>): Reply<()> {
    match out case Ok(_) => Done(()) case Typed(e) => Refuse(e) case Escaped(_) => Crash(0)
  }

  /** The authorizer port is the tenant prefix policy. */
  ghost predicate UsesPolicy(env: Env, policy: TenantPrefixPolicy) {
    forall h, uri, identity ::
      env.ports.authorize(h, uri, identity) == PolicyReply(policy.Authorize(uri, identity, env.leaves.brackets))
  }

  /** What an authorization call of the contract's identity recorded is the policy's verdict. */
  ghost predicate Judged(env: Env, policy: TenantPrefixPolicy, identity: Identity, e: Event) {
    e.DidAuthorize? ==>
      e.identity == identity && e.allowed == PolicyReply(policy.Authorize(e.uri, identity, env.leaves.brackets))
  }

  lemma {:induction false} AuthorizingIsJudged(env: Env, policy: TenantPrefixPolicy, h: History, uris: seq<string>,
                                               identity: Identity, i: nat)
    requires UsesPolicy(env, policy) && i <= |uris|
    ensures forall e | e in Authorizing(env, h, uris, identity, i).seg :: Judged(env, policy, identity, e)
    decreases |uris| - i
  {
    hide CheckScheme, TenantPrefixPolicy.Authorize;
    if i < |uris| {
      var event := DidAuthorize(uris[i], identity, env.ports.authorize(h, uris[i], identity));
      assert Judged(env, policy, identity, event);
      AuthorizingIsJudged(env, policy, h + [event], uris, identity, i + 1);
    }
  }

  lemma AuthorizeIsJudged(env: Env, policy: TenantPrefixPolicy, h: History, c: Contract)
    requires UsesPolicy(env, policy)
    ensures forall e | e in AuthorizeContract(env, h, c).seg :: Judged(env, policy, c.identity, e)
  {
    hide Authorizing, Judged, UsesPolicy;
    AuthorizingIsJudged(env, policy, h, InputUris(c), c.identity, 0);
    AuthorizingIsJudged(env, policy, h + Authorizing(env, h, InputUris(c), c.identity, 0).seg, OutputUris(c),
                        c.identity, 0);
  }

  /** The URI a storage call addresses. */
  function TouchedUri(e: Event): string
    requires e.DidRead? || e.DidWrite?
  {
    if e.DidRead? then e.source.target.uri else e.sink.target.uri
  }

  lemma PlannedAreDeclared(c: Contract, k: nat)
    requires k < |EffectOrder.Plan(c)|
    ensures var move := EffectOrder.Plan(c)[k];
      && (move.ToRead? ==> move.source in c.inputs) && (move.ToWrite? ==> move.sink in c.outputs)
  {
    hide EffectOrder.Resolutions;
  }

  lemma TouchesDeclaredUris(env: Env, h: History, c: Contract, i: nat)
    requires i < |Process(env, h, c).seg|
    requires var e := Process(env, h, c).seg[i]; e.DidRead? || e.DidWrite?
    ensures TouchedUri(Process(env, h, c).seg[i]) in EffectOrder.Uris(c)
  {
    hide Process, EffectOrder.Plan;
    EffectOrder.ProcessOrder(env, h, c);
    var e := Process(env, h, c).seg[i];
    assert EffectOrder.MoveOf(e) == EffectOrder.Plan(c)[i];
    PlannedAreDeclared(c, i);
    if e.DidRead? {
      var k :| 0 <= k < |c.inputs| && c.inputs[k] == e.source;
      assert InputUris(c)[k] == TouchedUri(e);
    } else {
      var k :| 0 <= k < |c.outputs| && c.outputs[k] == e.sink;
      assert OutputUris(c)[k] == TouchedUri(e);
    }
  }

  /** Every authorization call of a run is one of its authorization step. */
  lemma AuthorizationsAreJudged(env: Env, policy: TenantPrefixPolicy, h: History, c: Contract, j: nat)
    requires UsesPolicy(env, policy) && j < |Process(env, h, c).seg| && Process(env, h, c).seg[j].DidAuthorize?
    ensures Judged(env, policy, c.identity, Process(env, h, c).seg[j])
  {
    hide AuthorizeContract, ResolveContract, Loading, ComputeContract, Saving, SuccessPayload, Judged, UsesPolicy;
    var seg, auth := Process(env, h, c).seg, AuthorizeContract(env, h, c);
    assert auth.seg <= seg;
    AuthorizeIsJudged(env, policy, h, c);
    EffectOrder.ProcessOrder(env, h, c);
    EffectOrder.AuthorizationsFirst(c);
    EffectOrder.AuthorizeOrder(env, h, c);
    EffectOrder.AuthorizedLength(c);
    hide Process, EffectOrder.Plan, EffectOrder.UpToAuthorized, EffectOrder.Uris;
    assert EffectOrder.MoveOf(seg[j]) == EffectOrder.Plan(c)[j];
    assert j < |auth.seg|;
    assert seg[j] == auth.seg[j] && auth.seg[j] in auth.seg;
  }

  /** Whatever a run reads or writes was accepted by the policy for the contract's identity. */
  lemma TouchesOnlyAuthorized(env: Env, policy: TenantPrefixPolicy, h: History, c: Contract, i: nat)
    requires UsesPolicy(env, policy) && i < |Process(env, h, c).seg|
    requires var e := Process(env, h, c).seg[i]; e.DidRead? || e.DidWrite?
    ensures policy.Authorize(TouchedUri(Process(env, h, c).seg[i]), c.identity, env.leaves.brackets).Ok?
  {
    hide Process, UsesPolicy, TenantPrefixPolicy.Authorize, EffectOrder.Uris, CheckScheme;
    var seg := Process(env, h, c).seg;
    var uri := TouchedUri(seg[i]);
    TouchesDeclaredUris(env, h, c, i);
    EffectOrder.AuthorizedBeforeAnythingElse(env, h, c, i, uri);
    var j :| 0 <= j < i && seg[j].DidAuthorize? && seg[j].uri == uri && seg[j].Succeeded();
    AuthorizationsAreJudged(env, policy, h, c, j);
  }

  /** End to end: under the policy, a Cloud Storage object a run reads or writes lies in a bucket of
      the contract's tenant and, when required, in the folder of its user, exactly when the URI's
      two readings have the same bucket prefix and the same first folder. */
  lemma TouchesOwnObjectsOnly(env: Env, policy: TenantPrefixPolicy, h: History, c: Contract, i: nat)
    requires UsesPolicy(env, policy) && i < |Process(env, h, c).seg|
    requires var e := Process(env, h, c).seg[i]; (e.DidRead? || e.DidWrite?) && ParseGsUri(TouchedUri(e)).Ok?
    ensures
      var a := ParseGsUri(TouchedUri(Process(env, h, c).seg[i])).value;
      Owned(policy, a, c.identity) <==> OwnerReadAlike(policy, a, c.identity)
  {
    hide Process, UsesPolicy, TenantPrefixPolicy.Authorize, ParseGsUri, Owned, OwnerReadAlike;
    TouchesOnlyAuthorized(env, policy, h, c, i);
    AddressedObjectIsOwned(policy, TouchedUri(Process(env, h, c).seg[i]), c.identity, env.leaves.brackets);
  }
}
