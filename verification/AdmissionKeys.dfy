/** The keys behind a receipt, and the registries that provisioning hands on. */
module AdmissionKeys {
  import opened JsText
  import Base64url
  import opened CanonicalJson
  import opened Admission
  import opened AdmissionWitnesses
  import opened AdmissionEvidence
  import opened Protocol = AdmissionProtocol
  import opened Provisioning
  import opened ProvisioningReview

  ghost predicate StrictRegistry(registry: Registry) {
    forall id :: id in registry ==> Base64url.StrictBase64url(registry[id].publicKey).Some?
  }

  lemma StrictKeyOf(registry: Registry, id: Text)
    requires StrictRegistry(registry) && id in registry
    ensures Base64url.StrictBase64url(KeyOf(registry, id)).Some?
  {
  }

  function ProducerAt(ctx: Context, ps: Probes, rs: Readbacks, i: nat): Text
    requires |ps| > 0 && |rs| > 0
  {
    if i == 0 then ctx.deploymentProducer
    else if i == 1 then ctx.eventProducer
    else if i == 2 then ps[0].producer
    else rs[0].producer
  }

  lemma TextAt(ctx: Context, ps: Probes, rs: Readbacks, i: nat)
    requires |ps| > 0 && |rs| > 0 && Settled(ctx, ps, rs) && i < 4
    ensures ProducerAt(ctx, ps, rs, i) in ctx.registry
    ensures KeyTexts(ctx, ps, rs)[i] == KeyOf(ctx.registry, ProducerAt(ctx, ps, rs, i))
  {
    assert RoleOf(ctx.registry, ps[0].producer).Some? && RoleOf(ctx.registry, rs[0].producer).Some?;
  }

  lemma StrictRegistryGivesFourKeys(ctx: Context, authority: Authority, ps: Probes, rs: Readbacks)
    requires Complete(ctx, authority, ps, rs) && Settled(ctx, ps, rs) && KeysHold(ctx, ps, rs)
    requires StrictRegistry(ctx.registry)
    ensures FourKeys(KeyTexts(ctx, ps, rs))
  {
    forall i | 0 <= i < 4
      ensures Base64url.StrictBase64url(KeyTexts(ctx, ps, rs)[i]).Some?
    {
      TextAt(ctx, ps, rs, i);
      StrictKeyOf(ctx.registry, ProducerAt(ctx, ps, rs, i));
    }
    StrictKeysDiffer(ctx, authority, ps, rs);
  }

  /**
   Behind every receipt are four producers. Their keys differ exactly when no two of their texts are spare-bit twins,
   and always differ under a registry of strict texts.
   */
  lemma ReceiptKeysExactly(c: Checks, es: seq<Event>, n: nat, r: Receipt) returns (k: nat, p: Phase)
    requires HasReceipt(Run(RulesOf(c), es), n, r)
    ensures PassesAt(RulesOf(c), es, k, n, p) && ReceiptFor(p.challenge) == r
    ensures FourProducersSign(p.evidence)
    ensures FourKeys(TextsBehind(p.evidence, es[k].view)) <==> NoTwins(TextsBehind(p.evidence, es[k].view))
    ensures StrictRegistry(es[k].view.registry) ==> FourKeys(TextsBehind(p.evidence, es[k].view))
  {
    var ps, rs;
    k, p, ps, rs := ReceiptHasWitnesses(c, es, n, r);
    var v := es[k].view;
    var ctx := ContextOf(p.challenge, p.now, p.evidence, v);
    TextsAreKeyTexts(c, ctx, p.evidence, v, ps, rs);
    KeysDifferExactly(ctx, v.authority, ps, rs);
    if StrictRegistry(v.registry) { StrictRegistryGivesFourKeys(ctx, v.authority, ps, rs); }
  }

  lemma ApprovedIsStrict(v: Services, plan: Plan, review: Review, now: SafeInt)
    requires Approved(v, plan, review, now)
    ensures StrictRegistry(RegistryOf(plan.request.producers))
  {
    ApprovedProducers(v, plan, review, now);
    var q := plan.request;
    forall id | id in RegistryOf(q.producers)
      ensures Base64url.StrictBase64url(RegistryOf(q.producers)[id].publicKey).Some?
    {
      var j := RegistryHas(q.producers, id);
      assert EntryCheck(q.account, q.createdAt, q.expiresAt)(q.producers[j]);
    }
  }

  /** A receipt that was verified under the registry of an approved plan has four producers with four keys. */
  lemma ApprovedRegistryGivesFourKeys(
      c: Checks, es: seq<Event>, n: nat, r: Receipt, v: Services, plan: Plan, review: Review, now: SafeInt)
    returns (k: nat, p: Phase)
    requires HasReceipt(Run(RulesOf(c), es), n, r) && Approved(v, plan, review, now)
    ensures PassesAt(RulesOf(c), es, k, n, p) && ReceiptFor(p.challenge) == r
    ensures FourProducersSign(p.evidence)
    ensures es[k].view.registry == RegistryOf(plan.request.producers) ==> FourKeys(TextsBehind(p.evidence, es[k].view))
  {
    ApprovedIsStrict(v, plan, review, now);
    k, p := ReceiptKeysExactly(c, es, n, r);
  }
}
