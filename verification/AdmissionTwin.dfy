/** Every admission with four keys is next to one with three: the event producer takes the deployment producer's key. */
module AdmissionTwin {
  import opened Wrappers
  import opened JsText
  import Base64url
  import opened CanonicalJson
  import opened RawJson
  import opened Admission
  import opened WitnessLoops
  import opened AdmissionWitnesses
  import opened AdmissionEvidence
  import Protocol = AdmissionProtocol

  /** The registry in which the event producer's key text is the other text of the deployment producer's key. */
  function TwinRegistry(registry: Registry, d: Text, f: Text): Registry
    requires d in registry && f in registry
    requires |registry[d].publicKey| == Base64url.KEY_TEXT && Base64url.AllInAlphabet(registry[d].publicKey)
  {
    registry[f := registry[f].(publicKey := Base64url.Twin(registry[d].publicKey))]
  }

  /** The evidence with nothing changed but the signature of the event statement. */
  function Resigned(e: Evidence, signature: Text): Evidence { e.(event := e.event.(signature := signature)) }

  /** The key holder of the deployment statement signed the event statement's text. */
  predicate SignsEvent(c: Checks, e: Evidence, key: Text, signature: Text) {
    var k, s := DecodeBase64url(key), DecodeBase64url(signature);
    k.Some? && s.Some? && |s.value| == 64 && c.verify(k.value, SignedText(e.event), s.value)
  }

  // ---- What the change leaves alone ----

  /** Two contexts that tell statements of other producers than `f` alike. */
  ghost predicate SameFor(ctx: Context, to: Context, f: Text) {
    && to.now == ctx.now && to.account == ctx.account && to.eventObservedAt == ctx.eventObservedAt
    && to.active == ctx.active && to.event == ctx.event
    && to.deploymentProducer == ctx.deploymentProducer && to.eventProducer == ctx.eventProducer
    && to.challenge == ctx.challenge.(evidence := to.challenge.evidence)
    && to.registry.Keys == ctx.registry.Keys
    && forall id :: id in ctx.registry && id != f ==> to.registry[id] == ctx.registry[id]
  }

  lemma StillVerified(c: Checks, ctx: Context, to: Context, f: Text, role: Role, s: Statement)
    requires SameFor(ctx, to, f) && s.producerId != f
    ensures Verified(c, to, role, s) <==> Verified(c, ctx, role, s)
  {
  }

  lemma OtherRole(c: Checks, ctx: Context, f: Text, role: Role, s: Statement)
    requires Verified(c, ctx, role, s) && f in ctx.registry && ctx.registry[f].role != role
    ensures s.producerId != f
  {
  }

  lemma StillShows(c: Checks, ctx: Context, to: Context, f: Text, e: Evidence, g: Evidence, ps: Probes, rs: Readbacks)
    requires SameFor(ctx, to, f) && f in ctx.registry && ctx.registry[f].role == ProviderEventAnchor
    requires g.probes == e.probes && g.readbacks == e.readbacks && Shows(c, ctx, e, ps, rs)
    ensures Shows(c, to, g, ps, rs)
  {
    forall i | 0 <= i < |e.probes|
      ensures SeeProbe(c, to, e.probes[i]) == Some(ps[i])
    {
      assert SeeProbe(c, ctx, e.probes[i]) == Some(ps[i]);
      OtherRole(c, ctx, f, ProbeTranscript, e.probes[i]);
      StillVerified(c, ctx, to, f, ProbeTranscript, e.probes[i]);
    }
    forall i | 0 <= i < |e.readbacks|
      ensures SeeReadback(c, to, e.readbacks[i]) == Some(rs[i])
    {
      assert SeeReadback(c, ctx, e.readbacks[i]) == Some(rs[i]);
      OtherRole(c, ctx, f, IndependentReadback, e.readbacks[i]);
      StillVerified(c, ctx, to, f, IndependentReadback, e.readbacks[i]);
    }
  }

  /** The producers are the same four, and four key texts are still four. */
  lemma StillFourTexts(ctx: Context, to: Context, authority: Authority, ps: Probes, rs: Readbacks)
    requires Complete(ctx, authority, ps, rs) && Settled(ctx, ps, rs) && SameFor(ctx, to, ctx.eventProducer)
    requires var ts := KeyTexts(to, ps, rs); forall i, j :: 0 <= i < j < 4 ==> ts[i] != ts[j]
    ensures Complete(to, authority, ps, rs)
  {
    var d, f, p, r := ctx.deploymentProducer, ctx.eventProducer, ps[0].producer, rs[0].producer;
    OneProducerPerRole(ctx, authority, ps, rs);
    AllBy(ps, |ps|, p);
    AllBy(rs, |rs|, r);
    var ids := ProducerIds(ctx, ps, rs);
    assert ids == {d, f, p, r} && ProducerIds(to, ps, rs) == ids;
    var ts := KeyTexts(to, ps, rs);
    assert ts[0] != ts[1] && ts[0] != ts[2] && ts[0] != ts[3] && ts[1] != ts[2] && ts[1] != ts[3] && ts[2] != ts[3];
    var key := Key(to.registry);
    assert key(d) == ts[0] && key(f) == ts[1] && key(p) == ts[2] && key(r) == ts[3];
    FourImages(key, d, f, p, r);
  }

  lemma StillAcceptable(c: Checks, ctx: Context, to: Context, authority: Authority, ps: Probes, rs: Readbacks)
    requires Acceptable(c, ctx, authority, ps, rs) && SameFor(ctx, to, ctx.eventProducer)
    requires Complete(to, authority, ps, rs)
    ensures Acceptable(c, to, authority, ps, rs)
  {
    assert SnapshotInput(c, to, Anchors(rs)) == SnapshotInput(c, ctx, Anchors(rs));
  }

  // ---- The four texts after the change ----

  lemma TwinTextsDiffer(ctx: Context, to: Context, ps: Probes, rs: Readbacks)
    requires |ps| > 0 && |rs| > 0 && Settled(ctx, ps, rs) && KeysHold(ctx, ps, rs)
    requires FourKeys(KeyTexts(ctx, ps, rs)) && SameFor(ctx, to, ctx.eventProducer)
    requires var t := KeyOf(ctx.registry, ctx.deploymentProducer);
             && |t| == Base64url.KEY_TEXT && Base64url.AllInAlphabet(t)
             && KeyOf(to.registry, ctx.eventProducer) == Base64url.Twin(t)
    ensures var us := KeyTexts(to, ps, rs); forall i, j :: 0 <= i < j < 4 ==> us[i] != us[j]
  {
    var ts, us := KeyTexts(ctx, ps, rs), KeyTexts(to, ps, rs);
    Base64url.TwinIsSameKey(ts[0]);
    assert RoleOf(ctx.registry, ps[0].producer) == Some(ProbeTranscript);
    assert RoleOf(ctx.registry, rs[0].producer) == Some(IndependentReadback);
    assert us == [ts[0], Base64url.Twin(ts[0]), ts[2], ts[3]];
    assert DecodeBase64url(ts[0]) == DecodeBase64url(us[1]);
    assert DecodeBase64url(ts[0]) != DecodeBase64url(ts[2]) && DecodeBase64url(ts[0]) != DecodeBase64url(ts[3]);
    assert DecodeBase64url(ts[2]) != DecodeBase64url(ts[3]);
  }

  // ---- The admission after the change ----

  lemma KeyTextOf(registry: Registry, id: Text)
    requires HasKey(registry, id)
    ensures |registry[id].publicKey| == Base64url.KEY_TEXT && Base64url.AllInAlphabet(registry[id].publicKey)
  {
    Base64url.KeyTextLength(registry[id].publicKey);
  }

  lemma EventVerifies(c: Checks, ctx: Context, to: Context, s: Statement, signature: Text)
    requires Verified(c, ctx, ProviderEventAnchor, s) && SameFor(ctx, to, s.producerId)
    requires var p, q := ctx.registry[s.producerId], to.registry[s.producerId];
             q == p.(publicKey := q.publicKey)
    requires var k := DecodeBase64url(to.registry[s.producerId].publicKey);
             var t := DecodeBase64url(signature);
             k.Some? && |k.value| == 32 && t.Some? && |t.value| == 64 && c.verify(k.value, SignedText(s), t.value)
    ensures Verified(c, to, ProviderEventAnchor, s.(signature := signature))
    ensures to.registry[s.producerId].account == ctx.registry[s.producerId].account
  {
    assert SignedText(s.(signature := signature)) == SignedText(s);
  }

  /** The admission that takes the place of another. */
  datatype Neighbour = Neighbour(challenge: Challenge, evidence: Evidence, view: View)

  ghost predicate HasTwin(e: Evidence, v: View) {
    var d, f := e.deployment.producerId, e.event.producerId;
    && d in v.registry && f in v.registry
    && |v.registry[d].publicKey| == Base64url.KEY_TEXT && Base64url.AllInAlphabet(v.registry[d].publicKey)
  }

  function Next(c: Checks, ch: Challenge, e: Evidence, v: View, signature: Text): Neighbour
    requires HasTwin(e, v)
  {
    var d, f := e.deployment.producerId, e.event.producerId;
    var g := Resigned(e, signature);
    Neighbour(ch.(evidence := Digest(c, g)), g, v.(registry := TwinRegistry(v.registry, d, f)))
  }

  lemma NextIsSame(c: Checks, ch: Challenge, now: SafeInt, e: Evidence, v: View, signature: Text)
    requires HasTwin(e, v)
    ensures var n := Next(c, ch, e, v, signature);
            SameFor(ContextOf(ch, now, e, v), ContextOf(n.challenge, now, n.evidence, n.view), e.event.producerId)
  {
  }

  lemma NextHasTwin(c: Checks, ch: Challenge, e: Evidence, v: View, signature: Text)
    requires HasTwin(e, v) && e.deployment.producerId != e.event.producerId
    ensures var n := Next(c, ch, e, v, signature);
            var d, f := e.deployment.producerId, e.event.producerId;
            && HasKey(n.view.registry, d) && HasKey(n.view.registry, f)
            && n.view.registry[d] == v.registry[d]
            && n.view.registry[f] == v.registry[f].(publicKey := Base64url.Twin(v.registry[d].publicKey))
            && DecodeBase64url(KeyOf(n.view.registry, d)) == DecodeBase64url(KeyOf(n.view.registry, f))
  {
    Base64url.TwinIsSameKey(v.registry[e.deployment.producerId].publicKey);
  }

  lemma AnchorsVerify(c: Checks, ch: Challenge, now: SafeInt, e: Evidence, v: View, signature: Text)
    requires Passes(c, ch, now, e, v) && HasTwin(e, v)
    requires SignsEvent(c, e, KeyOf(v.registry, e.deployment.producerId), signature)
    ensures var n := Next(c, ch, e, v, signature);
            var to := ContextOf(n.challenge, now, n.evidence, n.view);
            && Verified(c, to, DeploymentAnchor, n.evidence.deployment)
            && n.view.registry[n.evidence.deployment.producerId].account == n.view.account
            && Verified(c, to, ProviderEventAnchor, n.evidence.event)
            && n.view.registry[n.evidence.event.producerId].account == n.view.account
  {
    var n := Next(c, ch, e, v, signature);
    var ctx, to := ContextOf(ch, now, e, v), ContextOf(n.challenge, now, n.evidence, n.view);
    OtherRole(c, ctx, e.event.producerId, DeploymentAnchor, e.deployment);
    NextIsSame(c, ch, now, e, v, signature);
    NextHasTwin(c, ch, e, v, signature);
    StillVerified(c, ctx, to, e.event.producerId, DeploymentAnchor, e.deployment);
    EventVerifies(c, ctx, to, e.event, signature);
  }

  lemma WitnessesStay(
      c: Checks, ctx: Context, to: Context, e: Evidence, g: Evidence, authority: Authority, ps: Probes, rs: Readbacks)
    requires Shows(c, ctx, e, ps, rs) && Acceptable(c, ctx, authority, ps, rs)
    requires Settled(ctx, ps, rs) && KeysHold(ctx, ps, rs) && FourKeys(KeyTexts(ctx, ps, rs))
    requires SameFor(ctx, to, ctx.eventProducer) && g.probes == e.probes && g.readbacks == e.readbacks
    requires var t := KeyOf(ctx.registry, ctx.deploymentProducer);
             && |t| == Base64url.KEY_TEXT && Base64url.AllInAlphabet(t)
             && KeyOf(to.registry, ctx.eventProducer) == Base64url.Twin(t)
    ensures Shows(c, to, g, ps, rs) && Acceptable(c, to, authority, ps, rs)
  {
    StillShows(c, ctx, to, ctx.eventProducer, e, g, ps, rs);
    TwinTextsDiffer(ctx, to, ps, rs);
    StillFourTexts(ctx, to, authority, ps, rs);
    StillAcceptable(c, ctx, to, authority, ps, rs);
  }

  /** What is asked: any admission that passes with four different keys, and one more signature. */
  ghost predicate MayTwin(c: Checks, ch: Challenge, now: SafeInt, e: Evidence, v: View, signature: Text) {
    && Passes(c, ch, now, e, v) && |e.probes| > 0 && |e.readbacks| > 0 && FourKeys(TextsBehind(e, v))
    && SignsEvent(c, e, KeyOf(v.registry, e.deployment.producerId), signature)
  }

  lemma TwinPasses(c: Checks, ch: Challenge, now: SafeInt, e: Evidence, v: View, signature: Text)
    requires MayTwin(c, ch, now, e, v, signature)
    ensures HasTwin(e, v) && e.deployment.producerId != e.event.producerId
    ensures var n := Next(c, ch, e, v, signature); Passes(c, n.challenge, now, n.evidence, n.view)
  {
    var ps, rs := PassingShowsWitnesses(c, ch, now, e, v);
    var ctx := ContextOf(ch, now, e, v);
    TextsAreKeyTexts(c, ctx, e, v, ps, rs);
    OtherRole(c, ctx, e.event.producerId, DeploymentAnchor, e.deployment);
    KeyTextOf(v.registry, e.deployment.producerId);
    var n := Next(c, ch, e, v, signature);
    var to := ContextOf(n.challenge, now, n.evidence, n.view);
    NextIsSame(c, ch, now, e, v, signature);
    NextHasTwin(c, ch, e, v, signature);
    AnchorsVerify(c, ch, now, e, v, signature);
    WitnessesStay(c, ctx, to, e, n.evidence, v.authority, ps, rs);
  }

  /**
   Take any admission that passes with four different keys for a valid challenge. Give the event producer the
   deployment producer's key in its other text, and let the holder of that key sign the event statement. Nothing else
   of evidence, registry and authority changes, and a run still ends in a receipt.
   */
  lemma FourKeysCanBecomeThree(c: Checks, ch: Challenge, now: SafeInt, e: Evidence, v: View, signature: Text)
    returns (es: seq<Protocol.Event>, n: Neighbour)
    requires MayTwin(c, ch, now, e, v, signature) && Protocol.ValidChallenge(Protocol.RulesOf(c), ch, e, now)
    requires IsSha256(Digest(c, Resigned(e, signature)))
    ensures var d, f := e.deployment.producerId, e.event.producerId;
            && d != f && d in v.registry && f in v.registry
            && HasKey(n.view.registry, d) && HasKey(n.view.registry, f)
            && n.evidence == Resigned(e, signature)
            && n.view == v.(registry := v.registry[f := v.registry[f].(publicKey := KeyOf(n.view.registry, f))])
            && n.challenge == ch.(evidence := Digest(c, n.evidence))
            && KeyOf(n.view.registry, d) != KeyOf(n.view.registry, f)
            && DecodeBase64url(KeyOf(n.view.registry, d)) == DecodeBase64url(KeyOf(n.view.registry, f))
    ensures Passes(c, n.challenge, now, n.evidence, n.view)
    ensures Protocol.HasReceipt(Protocol.Run(Protocol.RulesOf(c), es), 0, Protocol.ReceiptFor(n.challenge))
  {
    TwinPasses(c, ch, now, e, v, signature);
    NextHasTwin(c, ch, e, v, signature);
    Base64url.TwinIsSameKey(v.registry[e.deployment.producerId].publicKey);
    n := Next(c, ch, e, v, signature);
    es := Protocol.Alone(n.challenge, n.evidence, n.view, now);
    Protocol.PassingCanHaveReceipt(Protocol.RulesOf(c), n.challenge, n.evidence, n.view, now);
  }
}
