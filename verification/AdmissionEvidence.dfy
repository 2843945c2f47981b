/** Admission evidence as a whole: its digest, and what verifying it against a challenge comes to. */
module AdmissionEvidence {
  import opened Wrappers
  import opened JsText
  import opened CanonicalJson
  import opened Admission
  import opened WitnessLoops
  import opened AdmissionWitnesses

  datatype Evidence = Evidence(
    challengeId: Text, sequence: SafeInt, deployment: Statement, event: Statement,
    probes: seq<Statement>, readbacks: seq<Statement>)

  /** What the run learns from the registry and the independent authority while it verifies. */
  datatype View = View(
    registry: Registry, account: Text, active: Json, event: Json, eventObservedAt: SafeInt, authority: Authority)

  const EVIDENCE_FORMAT: Text := Ascii("osl.cipher-store.d2-production-admission.v3")

  function StatementJson(s: Statement): Json {
    Obj([(Ascii("format"), Str(s.format)), (PRODUCER_ID, Str(s.producerId)), (KEY_EPOCH, Num(s.keyEpoch)),
         (CHALLENGE_ID, Str(s.challengeId)), (SEQUENCE, Num(s.sequence)), (Ascii("algorithm"), Str(s.algorithm)),
         (PAYLOAD, s.payload), (Ascii("signature_base64url"), Str(s.signature))])
  }

  function EvidenceJson(e: Evidence): Json {
    Obj([(Ascii("format"), Str(EVIDENCE_FORMAT)), (CHALLENGE_ID, Str(e.challengeId)), (SEQUENCE, Num(e.sequence)),
         (Ascii("deployment"), StatementJson(e.deployment)), (Ascii("provider_event"), StatementJson(e.event)),
         (Ascii("probes"), Arr(Items(StatementJson, e.probes))),
         (Ascii("readbacks"), Arr(Items(StatementJson, e.readbacks)))])
  }

  function Digest(c: Checks, e: Evidence): Text { c.sha256Hex(Print(EvidenceJson(e))) }

  function ContextOf(ch: Challenge, now: SafeInt, e: Evidence, v: View): Context {
    Context(v.registry, ch, now, v.account, v.active, v.event, v.eventObservedAt,
            e.deployment.producerId, e.event.producerId)
  }

  /** These are the witnesses that the evidence shows. */
  ghost predicate Shows(c: Checks, ctx: Context, e: Evidence, ps: Probes, rs: Readbacks) {
    SeenProbes(c, ctx, e.probes, ps) && SeenReadbacks(c, ctx, e.readbacks, rs)
  }

  /** Both anchors verify for the active account, and the witnesses shown are acceptable. */
  ghost predicate Passes(c: Checks, ch: Challenge, now: SafeInt, e: Evidence, v: View) {
    var ctx := ContextOf(ch, now, e, v);
    && Verified(c, ctx, DeploymentAnchor, e.deployment) && v.registry[e.deployment.producerId].account == v.account
    && Verified(c, ctx, ProviderEventAnchor, e.event) && v.registry[e.event.producerId].account == v.account
    && exists ps: Probes, rs: Readbacks :: Shows(c, ctx, e, ps, rs) && Acceptable(c, ctx, v.authority, ps, rs)
  }

  /** Evidence that passes shows a complete set of witnesses by registered producers, one for each role. */
  lemma PassingShowsWitnesses(c: Checks, ch: Challenge, now: SafeInt, e: Evidence, v: View)
    returns (ps: Probes, rs: Readbacks)
    requires Passes(c, ch, now, e, v)
    ensures var ctx := ContextOf(ch, now, e, v);
            && Shows(c, ctx, e, ps, rs) && Acceptable(c, ctx, v.authority, ps, rs)
            && Settled(ctx, ps, rs) && KeysHold(ctx, ps, rs)
    ensures forall i :: 0 <= i < |e.probes| ==> e.probes[i].producerId == ps[0].producer
    ensures forall i :: 0 <= i < |e.readbacks| ==> e.readbacks[i].producerId == rs[0].producer
  {
    var ctx := ContextOf(ch, now, e, v);
    ps, rs :| Shows(c, ctx, e, ps, rs) && Acceptable(c, ctx, v.authority, ps, rs);
    VerifiedIsSettled(c, ctx, e.deployment, e.event, e.probes, e.readbacks, ps, rs);
    OneProducerPerRole(ctx, v.authority, ps, rs);
    forall i | 0 <= i < |e.probes|
      ensures e.probes[i].producerId == ps[0].producer
    {
      SeenBy(c, ctx, e.probes[i], ps[i]);
    }
    forall i | 0 <= i < |e.readbacks|
      ensures e.readbacks[i].producerId == rs[0].producer
    {
      ReadBy(c, ctx, e.readbacks[i], rs[i]);
    }
  }

  lemma SeenBy(c: Checks, ctx: Context, s: Statement, p: Seen<Text, Kind, Probe>)
    requires SeeProbe(c, ctx, s) == Some(p)
    ensures p.producer == s.producerId
  {
  }

  lemma ReadBy(c: Checks, ctx: Context, s: Statement, r: Seen<Text, Kind, Readback>)
    requires SeeReadback(c, ctx, s) == Some(r)
    ensures r.producer == s.producerId
  {
  }

  /** The key texts of the four producers whose statements a run verified. */
  function TextsBehind(e: Evidence, v: View): seq<Text>
    requires |e.probes| > 0 && |e.readbacks| > 0
  {
    [KeyOf(v.registry, e.deployment.producerId), KeyOf(v.registry, e.event.producerId),
     KeyOf(v.registry, e.probes[0].producerId), KeyOf(v.registry, e.readbacks[0].producerId)]
  }

  /** Besides the two anchors, one producer signs all transcripts and one all readbacks. */
  ghost predicate FourProducersSign(e: Evidence) {
    && |e.probes| == KIND_COUNT && |e.readbacks| == KIND_COUNT
    && (forall i :: 0 <= i < KIND_COUNT ==> e.probes[i].producerId == e.probes[0].producerId)
    && (forall i :: 0 <= i < KIND_COUNT ==> e.readbacks[i].producerId == e.readbacks[0].producerId)
  }

  lemma TextsAreKeyTexts(c: Checks, ctx: Context, e: Evidence, v: View, ps: Probes, rs: Readbacks)
    requires |ps| == |rs| == KIND_COUNT && Shows(c, ctx, e, ps, rs)
    requires ctx == ContextOf(ctx.challenge, ctx.now, e, v)
    requires forall i :: 0 <= i < |e.probes| ==> e.probes[i].producerId == ps[0].producer
    requires forall i :: 0 <= i < |e.readbacks| ==> e.readbacks[i].producerId == rs[0].producer
    ensures FourProducersSign(e) && TextsBehind(e, v) == KeyTexts(ctx, ps, rs)
  {
  }
}
