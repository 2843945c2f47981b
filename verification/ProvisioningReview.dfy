/** What a validated plan is, and the four signatures that approve it. */
module ProvisioningReview {
  import opened Wrappers
  import opened JsText
  import Base64url
  import opened CanonicalJson
  import opened CanonicalJsonProofs
  import opened RawJson
  import opened Admission
  import opened WitnessLoops
  import opened DistinctLoops
  import opened ProvisioningSections
  import opened Provisioning

  // ---- The canonical text decides the plan ----

  lemma ArrayDecided<E>(f: E -> Json, es: seq<E>, fs: seq<E>)
    requires Normal(Arr(Map(f, es))) == Normal(Arr(Map(f, fs)))
    ensures |es| == |fs| && forall i :: 0 <= i < |es| ==> Normal(f(es[i])) == Normal(f(fs[i]))
  {
    var a, b := NormalAll(Map(f, es)), NormalAll(Map(f, fs));
    forall i | 0 <= i < |es| && |es| == |fs|
      ensures Normal(f(es[i])) == Normal(f(fs[i]))
    {
      assert a[i] == Normal(Map(f, es)[i]) && b[i] == Normal(Map(f, fs)[i]);
    }
  }

  lemma RoleNameLength(r: Role)
    ensures |RoleName(r)| == match r
                             case DeploymentAnchor => 17
                             case ProviderEventAnchor => 21
                             case ProbeTranscript => 16
                             case IndependentReadback => 20
  {
  }

  lemma RoleNameDecides(r: Role, s: Role)
    requires RoleName(r) == RoleName(s)
    ensures r == s
  {
    RoleNameLength(r);
    RoleNameLength(s);
  }

  lemma EntryDecided(e: Entry, f: Entry)
    requires Normal(EntryJson(e)) == Normal(EntryJson(f))
    ensures e == f
  {
    var vs, ws := EntryValues(e), EntryValues(f);
    ObjectDecided(ENTRY_NAMES, vs, ws);
    assert Normal(vs[0]) == Normal(ws[0]) && Normal(vs[1]) == Normal(ws[1]) && Normal(vs[2]) == Normal(ws[2]);
    assert Normal(vs[3]) == Normal(ws[3]) && Normal(vs[4]) == Normal(ws[4]) && Normal(vs[5]) == Normal(ws[5]);
    assert Normal(vs[6]) == Normal(ws[6]) && Normal(vs[7]) == Normal(ws[7]);
    RoleNameDecides(e.producer.role, f.producer.role);
  }

  lemma SigningDecided(p: SigningRequest, q: SigningRequest)
    requires Normal(SigningJson(p)) == Normal(SigningJson(q))
    ensures p == q
  {
    var vs, ws := SigningValues(p), SigningValues(q);
    ObjectDecided(SIGNING_NAMES, vs, ws);
    assert Normal(vs[0]) == Normal(ws[0]) && Normal(vs[1]) == Normal(ws[1]);
    assert Normal(vs[2]) == Normal(ws[2]) && Normal(vs[5]) == Normal(ws[5]);
    RoleNameDecides(p.role, q.role);
  }

  lemma EntriesDecided(es: seq<Entry>, fs: seq<Entry>)
    requires Normal(Arr(Map(EntryJson, es))) == Normal(Arr(Map(EntryJson, fs)))
    ensures es == fs
  {
    ArrayDecided(EntryJson, es, fs);
    forall i | 0 <= i < |es| ensures es[i] == fs[i] { EntryDecided(es[i], fs[i]); }
  }

  lemma SigningsDecided(es: seq<SigningRequest>, fs: seq<SigningRequest>)
    requires Normal(Arr(Map(SigningJson, es))) == Normal(Arr(Map(SigningJson, fs)))
    ensures es == fs
  {
    ArrayDecided(SigningJson, es, fs);
    forall i | 0 <= i < |es| ensures es[i] == fs[i] { SigningDecided(es[i], fs[i]); }
  }

  lemma RequestValuesAre(r: Request)
    ensures var vs, s := RequestValues(r), r.sections;
            && |vs| == |REQUEST_NAMES| == 10
            && vs[1] == Num(r.createdAt) && vs[2] == Num(r.expiresAt) && vs[3] == Str(r.account)
            && vs[4] == PinJson(s.admission) && vs[5] == Arr(Map(EntryJson, r.producers))
            && vs[6] == DeploymentJson(s.deployment) && vs[7] == EventJson(s.event)
            && vs[8] == RootsJson(s.roots) && vs[9] == PinJson(s.client)
  {
  }

  lemma RequestFields(r: Request, q: Request)
    requires Normal(RequestJson(r)) == Normal(RequestJson(q))
    ensures |RequestValues(r)| == |RequestValues(q)| == 10
    ensures forall i :: 0 <= i < 10 ==> Normal(RequestValues(r)[i]) == Normal(RequestValues(q)[i])
  {
    RequestValuesAre(r);
    RequestValuesAre(q);
    ObjectDecided(REQUEST_NAMES, RequestValues(r), RequestValues(q));
  }

  lemma SectionsDecided(r: Request, q: Request)
    requires Normal(RequestJson(r)) == Normal(RequestJson(q))
    ensures r.sections == q.sections
  {
    RequestFields(r, q);
    RequestValuesAre(r);
    RequestValuesAre(q);
    PinDecided(r.sections.admission, q.sections.admission);
    DeploymentDecided(r.sections.deployment, q.sections.deployment);
    EventDecided(r.sections.event, q.sections.event);
    RootsDecided(r.sections.roots, q.sections.roots);
    PinDecided(r.sections.client, q.sections.client);
  }

  lemma RequestDecided(r: Request, q: Request)
    requires Normal(RequestJson(r)) == Normal(RequestJson(q))
    ensures r == q
  {
    SectionsDecided(r, q);
    RequestFields(r, q);
    RequestValuesAre(r);
    RequestValuesAre(q);
    NumbersDecided(r.createdAt, q.createdAt);
    NumbersDecided(r.expiresAt, q.expiresAt);
    TextsDecided(r.account, q.account);
    EntriesDecided(r.producers, q.producers);
  }

  function PlanValues(p: Plan): seq<Json> { BodyValues(p.createdAt, p.expiresAt, p.request) + TailValues(p) }

  lemma PlanFields(p: Plan, q: Plan)
    requires Print(PlanJson(p)) == Print(PlanJson(q))
    ensures |PlanValues(p)| == |PlanValues(q)|
    ensures forall i :: 0 <= i < |PlanValues(p)| ==> Normal(PlanValues(p)[i]) == Normal(PlanValues(q)[i])
  {
    ParsePrint(PlanJson(p));
    ParsePrint(PlanJson(q));
    ObjectDecided(BODY_NAMES + TAIL_NAMES, PlanValues(p), PlanValues(q));
  }

  lemma PlanValuesAre(p: Plan)
    ensures var vs := PlanValues(p);
            && |vs| == 9 && vs[1] == Num(p.createdAt) && vs[2] == Num(p.expiresAt) && vs[5] == RequestJson(p.request)
            && vs[6] == Str(p.planSha256) && vs[7] == Arr(Map(SigningJson, p.signingRequests))
  {
  }

  /** Plans that print alike are equal. */
  lemma PlanDecided(p: Plan, q: Plan)
    requires Print(PlanJson(p)) == Print(PlanJson(q))
    ensures p == q
  {
    PlanFields(p, q);
    PlanValuesAre(p);
    PlanValuesAre(q);
    NumbersDecided(p.createdAt, q.createdAt);
    NumbersDecided(p.expiresAt, q.expiresAt);
    TextsDecided(p.planSha256, q.planSha256);
    RequestDecided(p.request, q.request);
    SigningsDecided(p.signingRequests, q.signingRequests);
  }

  /** A plan validates exactly when it is the build of its own request, digest and signing requests included. */
  lemma ValidatedPlanIsItsBuild(v: Services, p: Plan, now: SafeInt)
    ensures Validate(v, p, now).Some? <==> Build(v, p.request, now) == Some(p)
    ensures Validate(v, p, now).Some? ==> Validate(v, p, now) == Some(p)
  {
    var q := Build(v, p.request, now);
    if q.Some? && Print(PlanJson(q.value)) == Print(PlanJson(p)) {
      PlanDecided(q.value, p);
    }
  }

  // ---- The review receipt ----

  const REVIEW_FORMAT: Text := Ascii("osl.cipher-store.d2-authority-review-receipt.v1")
  const APPROVE: Text := Ascii("approve-registry-import-candidate")

  datatype Signature = Signature(id: Text, role: Role, keyEpoch: SafeInt, algorithm: Text, signature: Text)

  datatype Review = Review(
    format: Text, planSha256: Text, reviewId: Text, artifact: Text, reviewedAt: SafeInt, expiresAt: SafeInt,
    decision: Text, signatures: seq<Signature>)

  const BINDING_NAMES: seq<Text> := [
    Ascii("plan_sha256"), Ascii("review_id"), Ascii("review_artifact_sha256"), Ascii("reviewed_at_ms"),
    Ascii("expires_at_ms"), Ascii("decision")]

  function BindingValues(r: Review): seq<Json> {
    [Str(r.planSha256), Str(r.reviewId), Str(r.artifact), Num(r.reviewedAt), Num(r.expiresAt), Str(APPROVE)]
  }

  function BindingJson(r: Review): Json { Object(BINDING_NAMES, BindingValues(r)) }

  function SignerText(e: Entry): Text {
    e.id + ([0] + (RoleName(e.producer.role) + ([0] + PrintInt(e.producer.keyEpoch))))
  }

  /** Domain, review and signer, separated by NUL. */
  function ReviewMessage(r: Review, e: Entry): Text {
    SIGNING_DOMAIN + ([0] + (Print(BindingJson(r)) + ([0] + SignerText(e))))
  }

  /** The producer with an id; a later one replaces an earlier one. */
  function Find(es: seq<Entry>, id: Text): Option<Entry> {
    if es == [] then None
    else if es[|es| - 1].id == id then Some(es[|es| - 1])
    else Find(es[..|es| - 1], id)
  }

  predicate SignatureOk(v: Services, p: Plan, r: Review, s: Signature) {
    && s.algorithm == ED25519
    && var e := Find(p.request.producers, s.id);
       && e.Some?
       && var q := e.value.producer;
          && s.role == q.role && s.keyEpoch == q.keyEpoch
          && q.validFrom <= r.reviewedAt && r.expiresAt <= q.validThrough
          && (q.revokedAt.Some? ==> r.expiresAt < q.revokedAt.value)
          && Signs(v, r, e.value, s)
  }

  /** The signature is 64 strictly encoded bytes that verify over the message for this producer. */
  predicate Signs(v: Services, r: Review, e: Entry, s: Signature) {
    var key, signature := Base64url.StrictBase64url(e.producer.publicKey), Base64url.StrictBase64url(s.signature);
    key.Some? && signature.Some? && |signature.value| == 64 && v.verify(key.value, ReviewMessage(r, e), signature.value)
  }

  function SignatureCheck(v: Services, p: Plan, r: Review): Signature -> bool { s => SignatureOk(v, p, r, s) }

  const SIGNER: Signature -> Text := (s: Signature) => s.id
  const SIGNER_ROLE: Signature -> Role := (s: Signature) => s.role

  predicate Current(p: Plan, r: Review, now: SafeInt) {
    && r.reviewedAt > 0 && r.expiresAt > 0
    && r.format == REVIEW_FORMAT && r.planSha256 == p.planSha256 && r.decision == APPROVE
    && p.createdAt <= r.reviewedAt <= now && r.expiresAt == p.expiresAt && r.expiresAt > now
    && IsSha256(r.reviewId) && IsSha256(r.artifact)
  }

  ghost predicate Approved(v: Services, p: Plan, r: Review, now: SafeInt) {
    && Validate(v, p, now).Some? && Current(p, r, now)
    && |r.signatures| == 4 && AllOk(SignatureCheck(v, p, r), r.signatures)
    && Distinct(SIGNER, r.signatures) && Distinct(SIGNER_ROLE, r.signatures)
  }

  function RegistryOf(es: seq<Entry>): Registry {
    if es == [] then map[] else RegistryOf(es[..|es| - 1])[es[|es| - 1].id := es[|es| - 1].producer]
  }

  lemma FourSigners(ss: seq<Signature>)
    requires |ss| == 4 && Distinct(SIGNER, ss) && Distinct(SIGNER_ROLE, ss)
    ensures |KindsTo(Tag(SIGNER, ss), 4)| == 4 && KindsTo(Tag(SIGNER_ROLE, ss), 4) == ROLES
  {
    RolesAreFour();
    KindCount(Tag(SIGNER, ss), 4);
    KindCount(Tag(SIGNER_ROLE, ss), 4);
    SetOfSizeAtLeast(KindsTo(Tag(SIGNER_ROLE, ss), 4), ROLES);
  }

  /** What the import of a review hands on: a registry, and the plan and the review it comes from. */
  datatype Candidate = Candidate(planSha256: Text, reviewId: Text, artifact: Text, producers: Registry)

  method VerifyReview(v: Services, p: Plan, r: Review, now: SafeInt) returns (candidate: Option<Candidate>)
    ensures candidate.Some? <==> Approved(v, p, r, now)
    ensures candidate.Some? ==>
              candidate.value == Candidate(
                                   PlanDigest(v, p.request), r.reviewId, r.artifact, RegistryOf(p.request.producers))
  {
    var plan := ValidatePlan(v, p, now);
    ValidatedPlanIsItsBuild(v, p, now);
    if plan.None? || !Current(plan.value, r, now) || |r.signatures| != 4 {
      return None;
    }
    var ok, ids, roles := CheckDistinct(SignatureCheck(v, plan.value, r), SIGNER, SIGNER_ROLE, SIGNER, r.signatures);
    if !ok {
      return None;
    }
    FourSigners(r.signatures);
    if |ids| != 4 || !(ROLES <= roles) {
      return None;
    }
    return Some(Candidate(plan.value.planSha256, r.reviewId, r.artifact, RegistryOf(plan.value.request.producers)));
  }

  // ---- Signatures, producers and roles are in bijection ----

  lemma {:induction false} Found(es: seq<Entry>, id: Text) returns (j: nat)
    requires Find(es, id).Some?
    ensures j < |es| && es[j] == Find(es, id).value && es[j].id == id
    decreases |es|
  {
    if es[|es| - 1].id == id { j := |es| - 1; } else { j := Found(es[..|es| - 1], id); }
  }

  lemma ApprovedProducers(v: Services, p: Plan, r: Review, now: SafeInt)
    requires Approved(v, p, r, now)
    ensures |p.request.producers| == 4 && Distinct(ID, p.request.producers) && Distinct(ROLE, p.request.producers)
    ensures GoodProducers(p.request.account, p.request.createdAt, p.request.expiresAt, p.request.producers)
  {
    ValidatedPlanIsItsBuild(v, p, now);
  }

  /** Four producers with ids of their own, and four signatures that hold, by different signers in different roles. */
  ghost predicate Signed(v: Services, p: Plan, r: Review) {
    && |p.request.producers| == 4 && Distinct(ID, p.request.producers)
    && |r.signatures| == 4 && AllOk(SignatureCheck(v, p, r), r.signatures)
    && Distinct(SIGNER, r.signatures) && Distinct(SIGNER_ROLE, r.signatures)
  }

  lemma ApprovedIsSigned(v: Services, p: Plan, r: Review, now: SafeInt)
    requires Approved(v, p, r, now)
    ensures Signed(v, p, r)
  {
    ApprovedProducers(v, p, r, now);
  }

  /** Signature `i` is by producer `j`, and by no other. */
  ghost predicate SignedBy(v: Services, p: Plan, r: Review, i: nat, j: nat) {
    var es, ss := p.request.producers, r.signatures;
    && i < |ss| && j < |es| && es[j].id == ss[i].id && es[j].producer.role == ss[i].role && Signs(v, r, es[j], ss[i])
    && (forall k :: 0 <= k < |es| && es[k].id == ss[i].id ==> k == j)
    && (forall k :: 0 <= k < |ss| && ss[k].id == es[j].id ==> k == i)
  }

  lemma SignerOf(v: Services, p: Plan, r: Review, i: nat) returns (j: nat)
    requires Signed(v, p, r) && i < |r.signatures|
    ensures SignedBy(v, p, r, i, j)
  {
    var es, ss := p.request.producers, r.signatures;
    assert SignatureCheck(v, p, r)(ss[i]);
    j := Found(es, ss[i].id);
    forall k | 0 <= k < |es| && es[k].id == ss[i].id
      ensures k == j
    {
      Apart(ID, es, k, j);
    }
    forall k | 0 <= k < |ss| && ss[k].id == es[j].id
      ensures k == i
    {
      Apart(SIGNER, ss, k, i);
    }
  }

  lemma SignatureOf(v: Services, p: Plan, r: Review, j: nat) returns (i: nat)
    requires Signed(v, p, r) && j < |p.request.producers|
    ensures SignedBy(v, p, r, i, j)
  {
    var es, ss := p.request.producers, r.signatures;
    var te, ts := Tag(ID, es), Tag(SIGNER, ss);
    forall k | 0 <= k < |ss|
      ensures ss[k].id in KindsTo(te, 4)
    {
      var h := SignerOf(v, p, r, k);
      KindIn(te, 4, h);
    }
    KindCount(te, 4);
    KindIn(te, 4, j);
    i := EveryKindOnce(ts, KindsTo(te, 4), es[j].id);
    var h := SignerOf(v, p, r, i);
  }

  /** Each signature is by exactly one producer of the plan, in that producer's role, over that producer's message. */
  lemma EverySignatureHasItsProducer(v: Services, p: Plan, r: Review, now: SafeInt, i: nat) returns (j: nat)
    requires Approved(v, p, r, now) && i < |r.signatures|
    ensures SignedBy(v, p, r, i, j)
  {
    ApprovedIsSigned(v, p, r, now);
    j := SignerOf(v, p, r, i);
  }

  /** Each producer of the plan has exactly one signature. */
  lemma EveryProducerSignsOnce(v: Services, p: Plan, r: Review, now: SafeInt, j: nat) returns (i: nat)
    requires Approved(v, p, r, now) && j < |p.request.producers|
    ensures SignedBy(v, p, r, i, j)
  {
    ApprovedIsSigned(v, p, r, now);
    i := SignatureOf(v, p, r, j);
  }

  lemma RoleSignsOnce(ss: seq<Signature>, role: Role) returns (i: nat)
    requires |ss| == 4 && Distinct(SIGNER_ROLE, ss)
    ensures i < |ss| && ss[i].role == role && forall k :: 0 <= k < |ss| && ss[k].role == role ==> k == i
  {
    RolesAreFour();
    i := EveryKindOnce(Tag(SIGNER_ROLE, ss), ROLES, role);
    forall k | 0 <= k < |ss| && ss[k].role == role
      ensures k == i
    {
      Apart(SIGNER_ROLE, ss, k, i);
    }
  }

  /** Each of the four roles is covered by exactly one signature. */
  lemma EveryRoleSignsOnce(v: Services, p: Plan, r: Review, now: SafeInt, role: Role) returns (i: nat)
    requires Approved(v, p, r, now)
    ensures i < |r.signatures| && r.signatures[i].role == role
    ensures forall k :: 0 <= k < |r.signatures| && r.signatures[k].role == role ==> k == i
  {
    i := RoleSignsOnce(r.signatures, role);
  }

  // ---- The signed message decides review and signer ----

  predicate NoNul(t: Text) { forall i :: 0 <= i < |t| ==> t[i] != 0 }

  lemma CutAtNul(a: Text, x: Text, b: Text, y: Text)
    requires NoNul(a) && NoNul(b) && a + ([0] + x) == b + ([0] + y)
    ensures a == b && x == y
  {
    var s, t := a + ([0] + x), b + ([0] + y);
    assert s[|a|] == 0 && t[|b|] == 0;
    assert s[..|a|] == a && t[..|b|] == b;
    assert s[|a| + 1..] == x && t[|b| + 1..] == y;
  }

  lemma PlainName(s: string)
    requires forall i :: 0 <= i < |s| ==> s[i] != 0 as char
    ensures NoNul(Ascii(s))
  {
  }

  lemma RoleNamePlain(r: Role)
    ensures NoNul(RoleName(r))
  {
    match r
    case DeploymentAnchor => PlainName("deployment-anchor");
    case ProviderEventAnchor => PlainName("provider-event-anchor");
    case ProbeTranscript => PlainName("probe-transcript");
    case IndependentReadback => PlainName("independent-readback");
  }

  lemma NumberDecides(m: SafeInt, n: SafeInt)
    requires PrintInt(m) == PrintInt(n)
    ensures m == n
  {
    assert Print(Num(m)) == Print(Num(n));
    ParsePrint(Num(m));
    ParsePrint(Num(n));
  }

  lemma SignerDecides(e: Entry, f: Entry)
    requires IsProducerId(e.id) && IsProducerId(f.id) && SignerText(e) == SignerText(f)
    ensures e.id == f.id && e.producer.role == f.producer.role && e.producer.keyEpoch == f.producer.keyEpoch
  {
    var re, rf := RoleName(e.producer.role), RoleName(f.producer.role);
    var ne, nf := PrintInt(e.producer.keyEpoch), PrintInt(f.producer.keyEpoch);
    CutAtNul(e.id, re + ([0] + ne), f.id, rf + ([0] + nf));
    RoleNamePlain(e.producer.role);
    RoleNamePlain(f.producer.role);
    CutAtNul(re, ne, rf, nf);
    RoleNameDecides(e.producer.role, f.producer.role);
    NumberDecides(e.producer.keyEpoch, f.producer.keyEpoch);
  }

  predicate SameReview(r: Review, q: Review) {
    && r.planSha256 == q.planSha256 && r.reviewId == q.reviewId && r.artifact == q.artifact
    && r.reviewedAt == q.reviewedAt && r.expiresAt == q.expiresAt
  }

  lemma BindingDecides(r: Review, q: Review)
    requires Normal(BindingJson(r)) == Normal(BindingJson(q))
    ensures SameReview(r, q)
  {
    var vs, ws := BindingValues(r), BindingValues(q);
    ObjectDecided(BINDING_NAMES, vs, ws);
    assert Normal(vs[0]) == Normal(ws[0]) && Normal(vs[1]) == Normal(ws[1]) && Normal(vs[2]) == Normal(ws[2]);
    assert Normal(vs[3]) == Normal(ws[3]) && Normal(vs[4]) == Normal(ws[4]);
  }

  lemma PrintedThenRest(v: Json, x: Text, w: Json, y: Text)
    requires Ends(x) && Ends(y) && Print(v) + x == Print(w) + y
    ensures Normal(v) == Normal(w) && x == y
  {
    EveryValueReadsBack(v);
    EveryValueReadsBack(w);
    Reads(v, x);
    Reads(w, y);
  }

  /** A signed message is for one review, one producer, one role and one key epoch only. */
  lemma MessageBinds(r: Review, e: Entry, q: Review, f: Entry)
    requires IsProducerId(e.id) && IsProducerId(f.id)
    ensures ReviewMessage(r, e) == ReviewMessage(q, f) <==>
            && SameReview(r, q)
            && e.id == f.id && e.producer.role == f.producer.role && e.producer.keyEpoch == f.producer.keyEpoch
  {
    if ReviewMessage(r, e) == ReviewMessage(q, f) {
      var x, y := [0] + SignerText(e), [0] + SignerText(f);
      SamePrefix(SIGNING_DOMAIN, [0] + (Print(BindingJson(r)) + x), [0] + (Print(BindingJson(q)) + y));
      SamePrefix([0], Print(BindingJson(r)) + x, Print(BindingJson(q)) + y);
      PrintedThenRest(BindingJson(r), x, BindingJson(q), y);
      SamePrefix([0], SignerText(e), SignerText(f));
      BindingDecides(r, q);
      SignerDecides(e, f);
    }
  }

  // ---- The registry candidate ----

  lemma {:induction false} RegistryHas(es: seq<Entry>, id: Text) returns (j: nat)
    requires id in RegistryOf(es)
    ensures j < |es| && es[j].id == id && es[j].producer == RegistryOf(es)[id]
    decreases |es|
  {
    if es[|es| - 1].id == id { j := |es| - 1; } else { j := RegistryHas(es[..|es| - 1], id); }
  }

  ghost predicate Separated(a: Producer, b: Producer) {
    && a.role != b.role
    && DecodeBase64url(a.publicKey).Some? && |DecodeBase64url(a.publicKey).value| == 32
    && DecodeBase64url(a.publicKey) != DecodeBase64url(b.publicKey)
  }

  lemma GoodProducersSeparate(account: Text, createdAt: int, expiresAt: int, es: seq<Entry>, i: nat, j: nat)
    requires GoodProducers(account, createdAt, expiresAt, es) && i < |es| && j < |es| && i != j
    ensures Separated(es[i].producer, es[j].producer)
  {
    assert EntryCheck(account, createdAt, expiresAt)(es[i]);
    assert EntryCheck(account, createdAt, expiresAt)(es[j]);
    KeysApart(es, i, j);
    Base64url.StrictIsInjective(es[i].producer.publicKey, es[j].producer.publicKey);
  }

  /** The registry of an approved plan separates the roles and holds four different 32-byte keys. */
  lemma CandidateSeparatesRoles(v: Services, p: Plan, r: Review, now: SafeInt, a: Text, b: Text)
    requires Approved(v, p, r, now)
    requires a in RegistryOf(p.request.producers) && b in RegistryOf(p.request.producers) && a != b
    ensures Separated(RegistryOf(p.request.producers)[a], RegistryOf(p.request.producers)[b])
  {
    var es := p.request.producers;
    ApprovedProducers(v, p, r, now);
    var i := RegistryHas(es, a);
    var j := RegistryHas(es, b);
    GoodProducersSeparate(p.request.account, p.request.createdAt, p.request.expiresAt, es, i, j);
  }

  lemma KeysApart(es: seq<Entry>, i: nat, j: nat)
    requires Distinct(ROLE, es) && Distinct(KEY, es) && i < |es| && j < |es| && i != j
    ensures es[i].producer.role != es[j].producer.role && es[i].producer.publicKey != es[j].producer.publicKey
  {
    var tr, tk := Tag(ROLE, es), Tag(KEY, es);
    assert tr[i].kind != tr[j].kind && tk[i].kind != tk[j].kind;
  }
}
