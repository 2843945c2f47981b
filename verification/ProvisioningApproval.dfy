/** Exactly which reviews are approved, and that for all well-formed requests some are. */
module ProvisioningApproval {
  import opened Wrappers
  import opened JsText
  import opened Bytes
  import Base64url
  import opened CanonicalJson
  import opened RawJson
  import opened Admission
  import opened DistinctLoops
  import opened ProvisioningSections
  import opened Provisioning
  import opened ProvisioningReview

  // ---- Approval is one signature from each producer ----

  /** Signature `i` is by producer `j` and no other, in its role and epoch, under the algorithm named. */
  ghost predicate SignsAs(v: Services, p: Plan, r: Review, i: nat, j: nat) {
    && SignedBy(v, p, r, i, j)
    && r.signatures[i].keyEpoch == p.request.producers[j].producer.keyEpoch && r.signatures[i].algorithm == ED25519
  }

  ghost predicate HasSigner(v: Services, p: Plan, r: Review, i: nat) { exists j: nat :: SignsAs(v, p, r, i, j) }

  ghost predicate AllSign(v: Services, p: Plan, r: Review) {
    |r.signatures| == 4 && forall i: nat :: i < 4 ==> HasSigner(v, p, r, i)
  }

  lemma {:induction false} FindHas(es: seq<Entry>, j: nat)
    requires j < |es|
    ensures Find(es, es[j].id).Some?
    decreases |es|
  {
    if j < |es| - 1 {
      FindHas(es[..|es| - 1], j);
      assert es[..|es| - 1][j] == es[j];
    }
  }

  lemma FindIs(v: Services, p: Plan, r: Review, i: nat, j: nat)
    requires SignedBy(v, p, r, i, j)
    ensures Find(p.request.producers, r.signatures[i].id) == Some(p.request.producers[j])
  {
    FindHas(p.request.producers, j);
    var h := Found(p.request.producers, r.signatures[i].id);
  }

  /** The producers of a good request are in force for every current review of its plan. */
  lemma InForceForReview(p: Plan, r: Review, now: SafeInt, j: nat)
    requires p.createdAt == p.request.createdAt && p.expiresAt == p.request.expiresAt && Current(p, r, now)
    requires GoodProducers(p.request.account, p.request.createdAt, p.request.expiresAt, p.request.producers)
    requires j < |p.request.producers|
    ensures var q := p.request.producers[j].producer;
            && q.validFrom <= r.reviewedAt && r.expiresAt <= q.validThrough
            && (q.revokedAt.Some? ==> r.expiresAt < q.revokedAt.value)
  {
    assert EntryCheck(p.request.account, p.request.createdAt, p.request.expiresAt)(p.request.producers[j]);
  }

  lemma SignsAsIsOk(v: Services, p: Plan, r: Review, now: SafeInt, i: nat, j: nat)
    requires p.createdAt == p.request.createdAt && p.expiresAt == p.request.expiresAt && Current(p, r, now)
    requires GoodProducers(p.request.account, p.request.createdAt, p.request.expiresAt, p.request.producers)
    requires SignsAs(v, p, r, i, j)
    ensures SignatureCheck(v, p, r)(r.signatures[i])
  {
    FindIs(v, p, r, i, j);
    InForceForReview(p, r, now, j);
  }

  lemma SignersDiffer(v: Services, p: Plan, r: Review, i: nat, k: nat)
    requires AllSign(v, p, r) && Distinct(ROLE, p.request.producers) && i < k < 4
    ensures r.signatures[i].id != r.signatures[k].id && r.signatures[i].role != r.signatures[k].role
  {
    assert HasSigner(v, p, r, i) && HasSigner(v, p, r, k);
    var j: nat :| SignsAs(v, p, r, i, j);
    var l: nat :| SignsAs(v, p, r, k, l);
    if r.signatures[i].role == r.signatures[k].role { Apart(ROLE, p.request.producers, j, l); }
  }

  lemma AllSignDistinct(v: Services, p: Plan, r: Review)
    requires AllSign(v, p, r) && Distinct(ROLE, p.request.producers)
    ensures Distinct(SIGNER, r.signatures) && Distinct(SIGNER_ROLE, r.signatures)
  {
    var ts, tr := Tag(SIGNER, r.signatures), Tag(SIGNER_ROLE, r.signatures);
    forall i, k | 0 <= i < k < 4
      ensures ts[i].kind != ts[k].kind && tr[i].kind != tr[k].kind
    {
      SignersDiffer(v, p, r, i, k);
    }
  }

  lemma SignedAllSign(v: Services, p: Plan, r: Review)
    requires Signed(v, p, r)
    ensures AllSign(v, p, r)
  {
    forall i: nat | i < 4
      ensures HasSigner(v, p, r, i)
    {
      var j := SignerOf(v, p, r, i);
      assert SignatureCheck(v, p, r)(r.signatures[i]);
      FindIs(v, p, r, i, j);
      assert SignsAs(v, p, r, i, j);
    }
  }

  lemma BuildIsGood(v: Services, p: Plan, now: SafeInt)
    requires Build(v, p.request, now) == Some(p)
    ensures p.createdAt == p.request.createdAt && p.expiresAt == p.request.expiresAt
    ensures GoodProducers(p.request.account, p.request.createdAt, p.request.expiresAt, p.request.producers)
  {
  }

  lemma AllSignOk(v: Services, p: Plan, r: Review, now: SafeInt)
    requires p.createdAt == p.request.createdAt && p.expiresAt == p.request.expiresAt && Current(p, r, now)
    requires GoodProducers(p.request.account, p.request.createdAt, p.request.expiresAt, p.request.producers)
    requires AllSign(v, p, r)
    ensures AllOk(SignatureCheck(v, p, r), r.signatures)
  {
    forall i | 0 <= i < 4
      ensures SignatureCheck(v, p, r)(r.signatures[i])
    {
      assert HasSigner(v, p, r, i);
      var j: nat :| SignsAs(v, p, r, i, j);
      SignsAsIsOk(v, p, r, now, i, j);
    }
  }

  lemma AllSignIsApproved(v: Services, p: Plan, r: Review, now: SafeInt)
    requires Build(v, p.request, now) == Some(p) && Current(p, r, now) && AllSign(v, p, r)
    ensures Approved(v, p, r, now)
  {
    ValidatedPlanIsItsBuild(v, p, now);
    BuildIsGood(v, p, now);
    AllSignOk(v, p, r, now);
    AllSignDistinct(v, p, r);
  }

  /**
   A review is approved exactly when the plan is the build of its own request, the review is current, and each of its
   four signatures is by one producer of the plan. That the producers are in force at the review follows.
   */
  lemma ApprovedExactly(v: Services, p: Plan, r: Review, now: SafeInt)
    ensures Approved(v, p, r, now) <==> Build(v, p.request, now) == Some(p) && Current(p, r, now) && AllSign(v, p, r)
  {
    if Approved(v, p, r, now) {
      ValidatedPlanIsItsBuild(v, p, now);
      ApprovedIsSigned(v, p, r, now);
      SignedAllSign(v, p, r);
    }
    if Build(v, p.request, now) == Some(p) && Current(p, r, now) && AllSign(v, p, r) {
      AllSignIsApproved(v, p, r, now);
    }
  }

  // ---- Good requests ----

  const ROLE_LIST: seq<Role> := [DeploymentAnchor, ProviderEventAnchor, ProbeTranscript, IndependentReadback]

  /** What a request leaves free: account, times, sections, and an id and a key for each role. */
  datatype Draft = Draft(
    account: Text, createdAt: SafeInt, expiresAt: SafeInt, sections: Sections, id: Role -> Text, key: Role -> bytes)

  function EntryOf(d: Draft, role: Role): Entry {
    Entry(d.id(role), Producer(Base64url.Encode(d.key(role)), d.account, role, 1, d.createdAt, d.expiresAt, None))
  }

  function EntriesOf(d: Draft): (es: seq<Entry>)
    ensures |es| == 4 && forall i :: 0 <= i < 4 ==> es[i] == EntryOf(d, ROLE_LIST[i])
  {
    seq(4, i requires 0 <= i < 4 => EntryOf(d, ROLE_LIST[i]))
  }

  function RequestOf(d: Draft): Request { Request(d.createdAt, d.expiresAt, d.account, d.sections, EntriesOf(d)) }

  ghost predicate DraftHolds(d: Draft) {
    && IsSha256(d.account) && 0 < d.createdAt < d.expiresAt && d.expiresAt - d.createdAt <= MAX_PLAN_LIFETIME
    && SectionsHold(d.sections, d.account, d.createdAt)
    && (forall role: Role :: IsProducerId(d.id(role)) && |d.key(role)| == 32)
    && (forall a: Role, b: Role :: a != b ==> d.id(a) != d.id(b) && d.key(a) != d.key(b))
  }

  lemma KeyTextStrict(b: bytes)
    requires |b| == 32
    ensures Base64url.StrictBase64url(Base64url.Encode(b)) == Some(b)
  {
    Base64url.StrictInvertsEncode(Base64url.Encode(b), b);
  }

  lemma EntryIsGood(d: Draft, role: Role)
    requires DraftHolds(d)
    ensures GoodEntry(d.account, d.createdAt, d.expiresAt, EntryOf(d, role))
  {
    KeyTextStrict(d.key(role));
  }

  lemma EntriesDiffer(d: Draft, i: nat, j: nat)
    requires DraftHolds(d) && i < j < 4
    ensures var a, b := EntriesOf(d)[i], EntriesOf(d)[j];
            a.id != b.id && a.producer.role != b.producer.role && a.producer.publicKey != b.producer.publicKey
  {
    var a, b := ROLE_LIST[i], ROLE_LIST[j];
    assert a != b && d.key(a) != d.key(b);
    KeyTextStrict(d.key(a));
    KeyTextStrict(d.key(b));
  }

  lemma ProducersAreGood(d: Draft)
    requires DraftHolds(d)
    ensures GoodProducers(d.account, d.createdAt, d.expiresAt, EntriesOf(d))
  {
    var es := EntriesOf(d);
    forall i | 0 <= i < 4
      ensures EntryCheck(d.account, d.createdAt, d.expiresAt)(es[i])
    {
      EntryIsGood(d, ROLE_LIST[i]);
    }
    forall i, j | 0 <= i < j < 4
      ensures ID(es[i]) != ID(es[j]) && ROLE(es[i]) != ROLE(es[j]) && KEY(es[i]) != KEY(es[j])
    {
      EntriesDiffer(d, i, j);
    }
  }

  /** For all sections that hold, four ids and four keys, the request is good while it is current. */
  lemma DraftsAreGood(v: Services, d: Draft, now: SafeInt)
    requires DraftHolds(d) && d.createdAt <= now < d.expiresAt
    ensures GoodRequest(v, RequestOf(d), now)
  {
    ProducersAreGood(d);
  }

  // ---- Sections that hold ----

  function Repeat(u: CodeUnit, n: nat): (t: Text)
    ensures |t| == n && forall i :: 0 <= i < n ==> t[i] == u
  {
    seq(n, _ => u)
  }

  function SomeWorker(): (t: Text)
    ensures IsWorkerVersion(t)
  {
    seq(36, (i: nat) => if IsHyphen(i) then 45 else if i == 14 then 49 else if i == 19 then 56 else 48)
  }

  function SomeSections(account: Text, at: SafeInt): Sections
    requires 1 < at
  {
    var pin := Pin(Repeat(48, 40), Repeat(48, 40), Repeat(48, 64));
    Sections(
      pin, pin,
      Deployment(account, SomeWorker(), 100, at, Source(RELEASE_COMMIT, RELEASE_TREE, RELEASE_MANIFEST),
                 DATABASE, at - 1, BUCKET),
      EventIdentity(Repeat(48, 32), Repeat(48, 64), SomeWorker(), at),
      Roots(ROOTS_FORMAT, at, SomeWorker(), Repeat(48, 64), Repeat(49, 64), Repeat(50, 64)))
  }

  lemma SectionsExist(account: Text, at: SafeInt)
    requires 1 < at
    ensures SectionsHold(SomeSections(account, at), account, at)
  {
    var r := SomeSections(account, at).roots;
    assert r.d1[0] != r.r2[0] && r.d1[0] != r.quota[0] && r.r2[0] != r.quota[0];
    ThreeApart(r.d1, r.r2, r.quota);
  }

  // ---- Approved reviews ----

  function SignatureFor(e: Entry, text: Text): Signature {
    Signature(e.id, e.producer.role, e.producer.keyEpoch, ED25519, text)
  }

  /** A review of the plan at `now`, signed by its producers in their order with the texts given. */
  function ReviewOf(p: Plan, now: SafeInt, id: Text, artifact: Text, texts: seq<Text>): Review
    requires |texts| == |p.request.producers|
  {
    Review(REVIEW_FORMAT, p.planSha256, id, artifact, now, p.expiresAt, APPROVE,
           seq(|texts|, i requires 0 <= i < |texts| => SignatureFor(p.request.producers[i], texts[i])))
  }

  ghost predicate OwnSignatures(v: Services, p: Plan, r: Review) {
    && |r.signatures| == |p.request.producers| == 4
    && forall i :: 0 <= i < 4 ==> Signs(v, r, p.request.producers[i], r.signatures[i])
  }

  /** Signed in the order of the producers, all sign exactly when each signature verifies for its own producer. */
  lemma InOrderAllSign(v: Services, p: Plan, now: SafeInt, id: Text, artifact: Text, texts: seq<Text>, r: Review)
    requires |p.request.producers| == |texts| == 4 && Distinct(ID, p.request.producers)
    requires r == ReviewOf(p, now, id, artifact, texts)
    ensures AllSign(v, p, r) <==> OwnSignatures(v, p, r)
  {
    var es := p.request.producers;
    forall i: nat, k: nat | i < 4 && k < 4 && es[k].id == es[i].id
      ensures k == i
    {
      Apart(ID, es, k, i);
    }
    forall i: nat | i < 4
      ensures HasSigner(v, p, r, i) <==> Signs(v, r, es[i], r.signatures[i])
    {
      if HasSigner(v, p, r, i) {
        var j: nat :| SignsAs(v, p, r, i, j);
        assert j == i;
      }
      if Signs(v, r, es[i], r.signatures[i]) { assert SignsAs(v, p, r, i, i); }
    }
  }

  lemma BuiltTwice(v: Services, q: Request, now: SafeInt, p: Plan)
    requires Build(v, q, now) == Some(p)
    ensures Build(v, p.request, now) == Some(p) && 0 < p.createdAt <= now < p.expiresAt
  {
    BuilderIsIdempotent(v, q, now, now);
  }

  lemma ReviewIsCurrent(p: Plan, now: SafeInt, id: Text, artifact: Text, texts: seq<Text>)
    requires |texts| == |p.request.producers| && 0 < p.createdAt <= now < p.expiresAt
    requires IsSha256(id) && IsSha256(artifact)
    ensures Current(p, ReviewOf(p, now, id, artifact, texts), now)
  {
  }

  /** Every good request has a plan, and a review of it signed in order is approved exactly when all four verify. */
  lemma GoodRequestsCanBeApproved(
      v: Services, q: Request, now: SafeInt, id: Text, artifact: Text, texts: seq<Text>, p: Plan)
    requires Build(v, q, now) == Some(p)
    requires IsSha256(id) && IsSha256(artifact) && |texts| == 4
    ensures |p.request.producers| == 4
    ensures var r := ReviewOf(p, now, id, artifact, texts); Approved(v, p, r, now) <==> OwnSignatures(v, p, r)
  {
    BuiltTwice(v, q, now, p);
    BuildIsGood(v, p, now);
    ReviewIsCurrent(p, now, id, artifact, texts);
    var r := ReviewOf(p, now, id, artifact, texts);
    InOrderAllSign(v, p, now, id, artifact, texts, r);
    ApprovedExactly(v, p, r, now);
  }

  // ---- Approvals exist ----

  lemma TrustedSigns(v: Services, p: Plan, r: Review)
    requires |r.signatures| == |p.request.producers| == 4
    requires GoodProducers(p.request.account, p.request.createdAt, p.request.expiresAt, p.request.producers)
    requires forall k, m, s :: v.verify(k, m, s)
    requires forall i :: 0 <= i < 4 ==>
               Base64url.StrictBase64url(r.signatures[i].signature).Some?
               && |Base64url.StrictBase64url(r.signatures[i].signature).value| == 64
    ensures OwnSignatures(v, p, r)
  {
    forall i | 0 <= i < 4
      ensures Signs(v, r, p.request.producers[i], r.signatures[i])
    {
      assert EntryCheck(p.request.account, p.request.createdAt, p.request.expiresAt)(p.request.producers[i]);
    }
  }

  ghost predicate WholeSignatures(texts: seq<Text>) {
    && |texts| == 4
    && forall i :: 0 <= i < 4 ==>
         Base64url.StrictBase64url(texts[i]).Some? && |Base64url.StrictBase64url(texts[i]).value| == 64
  }

  lemma TrustedIsApproved(
      v: Services, q: Request, now: SafeInt, id: Text, artifact: Text, texts: seq<Text>, p: Plan)
    requires Build(v, q, now) == Some(p) && IsSha256(id) && IsSha256(artifact) && WholeSignatures(texts)
    requires forall k, m, s :: v.verify(k, m, s)
    ensures |p.request.producers| == 4 && Approved(v, p, ReviewOf(p, now, id, artifact, texts), now)
  {
    GoodRequestsCanBeApproved(v, q, now, id, artifact, texts, p);
    BuiltTwice(v, q, now, p);
    BuildIsGood(v, p, now);
    TrustedSigns(v, p, ReviewOf(p, now, id, artifact, texts));
  }

  lemma FourWhole(signature: bytes, texts: seq<Text>)
    requires |signature| == 64 && |texts| == 4
    requires forall i :: 0 <= i < 4 ==> texts[i] == Base64url.Encode(signature)
    ensures WholeSignatures(texts)
  {
    Base64url.StrictInvertsEncode(Base64url.Encode(signature), signature);
  }

  /** For every draft that holds some review is approved; and drafts that hold exist, by `SectionsExist`. */
  lemma ApprovalsExist(v: Services, d: Draft, now: SafeInt, id: Text, artifact: Text, signature: bytes)
    returns (p: Plan, r: Review)
    requires DraftHolds(d) && d.createdAt <= now < d.expiresAt && IsSha256(id) && IsSha256(artifact)
    requires |signature| == 64 && forall k, m, s :: v.verify(k, m, s)
    ensures Build(v, RequestOf(d), now) == Some(p) && Approved(v, p, r, now)
  {
    DraftsAreGood(v, d, now);
    p := Build(v, RequestOf(d), now).value;
    var texts := seq(4, i => Base64url.Encode(signature));
    FourWhole(signature, texts);
    TrustedIsApproved(v, RequestOf(d), now, id, artifact, texts, p);
    r := ReviewOf(p, now, id, artifact, texts);
  }
}
