/** What a plan is, field by field, what its digest covers, and what the four signatures are therefore for. */
module ProvisioningDigest {
  import opened Wrappers
  import opened JsText
  import Base64url
  import opened Sorting
  import opened CanonicalJson
  import opened CanonicalJsonProofs
  import opened RawJson
  import opened Admission
  import opened DistinctLoops
  import opened ProvisioningSections
  import opened Provisioning
  import opened ProvisioningReview
  import opened ProvisioningApproval

  // ---- The part of a plan that is digested ----

  predicate AddedLater(name: Text) {
    name == Ascii("plan_sha256") || name == Ascii("signing_requests") || name == Ascii("signatures")
  }

  /** The members whose names are not dropped. */
  function Except(drop: Text -> bool, ms: seq<(Text, Json)>): seq<(Text, Json)> {
    if ms == [] then [] else (if drop(ms[0].0) then [] else [ms[0]]) + Except(drop, ms[1..])
  }

  lemma {:induction false} ExceptNone(drop: Text -> bool, ms: seq<(Text, Json)>)
    requires forall i :: 0 <= i < |ms| ==> !drop(ms[i].0)
    ensures Except(drop, ms) == ms
  {
    if ms != [] { ExceptNone(drop, ms[1..]); }
  }

  lemma {:induction false} ExceptAll(drop: Text -> bool, ms: seq<(Text, Json)>)
    requires forall i :: 0 <= i < |ms| ==> drop(ms[i].0)
    ensures Except(drop, ms) == []
  {
    if ms != [] { ExceptAll(drop, ms[1..]); }
  }

  lemma Associates<T>(a: seq<T>, b: seq<T>, c: seq<T>)
    ensures a + (b + c) == (a + b) + c
  {
  }

  lemma {:induction false} ExceptConcat(drop: Text -> bool, a: seq<(Text, Json)>, b: seq<(Text, Json)>)
    ensures Except(drop, a + b) == Except(drop, a) + Except(drop, b)
  {
    if a == [] {
      assert a + b == b;
    } else {
      ExceptConcat(drop, a[1..], b);
      assert (a + b)[1..] == a[1..] + b;
      Associates(if drop(a[0].0) then [] else [a[0]], Except(drop, a[1..]), Except(drop, b));
    }
  }

  /** The members of a plan other than its digest, its signing requests and its signatures. */
  function Body(ms: seq<(Text, Json)>): seq<(Text, Json)> { Except(AddedLater, ms) }

  lemma BodyNamesStay(i: nat)
    requires i < |BODY_NAMES|
    ensures !AddedLater(BODY_NAMES[i])
  {
  }

  lemma TailNamesGo(i: nat)
    requires i < |TAIL_NAMES|
    ensures AddedLater(TAIL_NAMES[i])
  {
  }

  lemma ObjectConcat(ns: seq<Text>, ms: seq<Text>, vs: seq<Json>, ws: seq<Json>)
    requires |ns| == |vs| && |ms| == |ws|
    ensures Object(ns + ms, vs + ws).members == Object(ns, vs).members + Object(ms, ws).members
  {
  }

  ghost function BodyText(p: Plan): Text { Print(Obj(Body(PlanJson(p).members))) }

  lemma BodyOfPlan(p: Plan)
    ensures Obj(Body(PlanJson(p).members)) == Object(BODY_NAMES, BodyValues(p.createdAt, p.expiresAt, p.request))
  {
    var vs, ws := BodyValues(p.createdAt, p.expiresAt, p.request), TailValues(p);
    var a, b := Object(BODY_NAMES, vs).members, Object(TAIL_NAMES, ws).members;
    ObjectConcat(BODY_NAMES, TAIL_NAMES, vs, ws);
    ExceptConcat(AddedLater, a, b);
    forall i | 0 <= i < |a| ensures !AddedLater(a[i].0) { BodyNamesStay(i); }
    forall i | 0 <= i < |b| ensures AddedLater(b[i].0) { TailNamesGo(i); }
    ExceptNone(AddedLater, a);
    ExceptAll(AddedLater, b);
  }

  /** The digest of a plan is that of its other members. */
  lemma DigestIsOfBody(v: Services, r: Request, now: SafeInt, p: Plan)
    requires Build(v, r, now) == Some(p)
    ensures p.planSha256 == v.sha256Hex(BodyText(p))
  {
    BodyOfPlan(p);
  }

  // ---- The digest decides the plan ----

  lemma BodyFields(r: Request, q: Request)
    requires var a, b := BodyValues(r.createdAt, r.expiresAt, r), BodyValues(q.createdAt, q.expiresAt, q);
             Normal(Object(BODY_NAMES, a)) == Normal(Object(BODY_NAMES, b))
    ensures Normal(RequestJson(r)) == Normal(RequestJson(q))
  {
    var a, b := BodyValues(r.createdAt, r.expiresAt, r), BodyValues(q.createdAt, q.expiresAt, q);
    ObjectDecided(BODY_NAMES, a, b);
    assert Normal(a[5]) == Normal(b[5]);
  }

  /** Built plans have one digest exactly when they are one plan, unless the digest collides. */
  lemma DigestDecidesPlan(v: Services, r: Request, now: SafeInt, p: Plan, s: Request, later: SafeInt, q: Plan)
    requires Build(v, r, now) == Some(p) && Build(v, s, later) == Some(q)
    ensures p.planSha256 == q.planSha256 <==> p == q || Collision(v.sha256Hex, BodyText(p), BodyText(q))
  {
    DigestIsOfBody(v, r, now, p);
    DigestIsOfBody(v, s, later, q);
    if BodyText(p) == BodyText(q) {
      SameBodySameRequest(p, q);
    }
  }

  lemma SameBodySameRequest(p: Plan, q: Plan)
    requires BodyText(p) == BodyText(q)
    requires p.createdAt == p.request.createdAt && p.expiresAt == p.request.expiresAt
    requires q.createdAt == q.request.createdAt && q.expiresAt == q.request.expiresAt
    ensures p.request == q.request
  {
    BodyOfPlan(p);
    BodyOfPlan(q);
    ParsePrint(Obj(Body(PlanJson(p).members)));
    ParsePrint(Obj(Body(PlanJson(q).members)));
    BodyFields(p.request, q.request);
    RequestDecided(p.request, q.request);
  }

  /** A signed message is for one plan, one review, one producer, one role and one epoch. */
  lemma MessageIsForOnePlan(v: Services, p: Plan, r: Review, now: SafeInt, e: Entry,
                            q: Plan, s: Review, later: SafeInt, f: Entry)
    requires Approved(v, p, r, now) && Approved(v, q, s, later)
    requires e in p.request.producers && f in q.request.producers
    ensures ReviewMessage(r, e) == ReviewMessage(s, f) <==>
            && (p == q || Collision(v.sha256Hex, BodyText(p), BodyText(q)))
            && r.reviewId == s.reviewId && r.artifact == s.artifact
            && r.reviewedAt == s.reviewedAt && r.expiresAt == s.expiresAt
            && e.id == f.id && e.producer.role == f.producer.role && e.producer.keyEpoch == f.producer.keyEpoch
  {
    ApprovedExactly(v, p, r, now);
    ApprovedExactly(v, q, s, later);
    DigestDecidesPlan(v, p.request, now, p, q.request, later, q);
    MemberIsGood(v, p, r, now, e);
    MemberIsGood(v, q, s, later, f);
    MessageBinds(r, e, s, f);
  }

  lemma MemberIsGood(v: Services, p: Plan, r: Review, now: SafeInt, e: Entry)
    requires Approved(v, p, r, now) && e in p.request.producers
    ensures IsProducerId(e.id)
  {
    ApprovedProducers(v, p, r, now);
    var i :| 0 <= i < |p.request.producers| && p.request.producers[i] == e;
    assert EntryCheck(p.request.account, p.request.createdAt, p.request.expiresAt)(p.request.producers[i]);
  }

  // ---- The digested text, read back ----

  ghost predicate NamesDiffer(names: seq<Text>) { forall i, j :: 0 <= i < j < |names| ==> names[i] != names[j] }

  lemma ObjectProper(names: seq<Text>, vs: seq<Json>)
    requires |names| == |vs| && NamesDiffer(names) && forall i :: 0 <= i < |vs| ==> Proper(vs[i])
    ensures Proper(Object(names, vs))
  {
    var ms := Object(names, vs).members;
    assert forall i :: 0 <= i < |ms| ==> ms[i].1 == vs[i];
  }

  lemma ArrayProper<E>(f: E -> Json, es: seq<E>)
    requires forall i :: 0 <= i < |es| ==> Proper(f(es[i]))
    ensures Proper(Arr(Map(f, es)))
  {
  }

  lemma PinNamesDiffer() ensures NamesDiffer(PIN_NAMES) {}

  lemma SourceNamesDiffer() ensures NamesDiffer(SOURCE_NAMES) {}

  lemma DeploymentNamesDiffer()
    ensures NamesDiffer(DEPLOYMENT_NAMES)
  {
    assert "account_sha256"[0] == 'a' && "d1_database_id"[0] == 'd' && "r2_bucket_name"[0] == 'r';
  }

  lemma EventNamesDiffer() ensures NamesDiffer(EVENT_NAMES) {}

  lemma RootsNamesDiffer()
    ensures NamesDiffer(ROOTS_NAMES)
  {
    assert "d1_sha256"[0] == 'd' && "r2_sha256"[0] == 'r';
  }

  lemma EntryNamesDiffer()
    ensures NamesDiffer(ENTRY_NAMES)
  {
    assert "valid_from_ms"[0] == 'v' && "revoked_at_ms"[0] == 'r';
  }

  lemma RequestNamesDiffer()
    ensures NamesDiffer(REQUEST_NAMES)
  {
    assert "created_at_ms"[0] == 'c' && "expires_at_ms"[0] == 'e';
    assert "account_sha256"[0] == 'a' && "readback_roots"[0] == 'r';
    assert "provider_event_identity"[0] == 'p' && "admitted_product_client"[0] == 'a';
  }

  lemma BodyNamesDiffer()
    ensures NamesDiffer(BODY_NAMES)
  {
    assert "created_at_ms"[0] == 'c' && "expires_at_ms"[0] == 'e';
  }

  lemma PinProper(p: Pin)
    ensures Proper(PinJson(p))
  {
    PinNamesDiffer();
    ObjectProper(PIN_NAMES, PinValues(p));
  }

  lemma DeploymentProper(d: Deployment)
    ensures Proper(DeploymentJson(d))
  {
    SourceNamesDiffer();
    ObjectProper(SOURCE_NAMES, SourceValues(d.source));
    DeploymentNamesDiffer();
    ObjectProper(DEPLOYMENT_NAMES, DeploymentValues(d));
  }

  lemma EventProper(e: EventIdentity)
    ensures Proper(EventJson(e))
  {
    EventNamesDiffer();
    ObjectProper(EVENT_NAMES, EventValues(e));
  }

  lemma RootsProper(r: Roots)
    ensures Proper(RootsJson(r))
  {
    RootsNamesDiffer();
    ObjectProper(ROOTS_NAMES, RootsValues(r));
  }

  lemma EntryProper(e: Entry)
    ensures Proper(EntryJson(e))
  {
    EntryNamesDiffer();
    ObjectProper(ENTRY_NAMES, EntryValues(e));
  }

  lemma RequestProper(r: Request)
    ensures Proper(RequestJson(r))
  {
    RequestNamesDiffer();
    PinProper(r.sections.admission);
    PinProper(r.sections.client);
    DeploymentProper(r.sections.deployment);
    EventProper(r.sections.event);
    RootsProper(r.sections.roots);
    forall i | 0 <= i < |r.producers| ensures Proper(EntryJson(r.producers[i])) { EntryProper(r.producers[i]); }
    ArrayProper(EntryJson, r.producers);
    ObjectProper(REQUEST_NAMES, RequestValues(r));
  }

  lemma BodyProper(p: Plan)
    ensures Proper(Obj(Body(PlanJson(p).members)))
  {
    BodyOfPlan(p);
    BodyNamesDiffer();
    RequestProper(p.request);
    ObjectProper(BODY_NAMES, BodyValues(p.createdAt, p.expiresAt, p.request));
  }

  /** The digested text parses, keys ascending, to the members of the plan other than the three added later. */
  lemma DigestedTextReads(v: Services, r: Request, now: SafeInt, p: Plan)
    requires Build(v, r, now) == Some(p)
    ensures p.planSha256 == v.sha256Hex(BodyText(p))
    ensures var read := Parse(BodyText(p));
            read.Some? && InOrder(read.value) && SameValue(Obj(Body(PlanJson(p).members)), read.value)
  {
    DigestIsOfBody(v, r, now, p);
    BodyProper(p);
    PrintIsInOrder(Obj(Body(PlanJson(p).members)));
  }

  // ---- Building, exactly ----

  predicate SoundEntry(r: Request, e: Entry) {
    var p := e.producer;
    && IsProducerId(e.id) && p.account == r.account && p.keyEpoch > 0
    && Base64url.StrictBase64url(p.publicKey).Some? && |Base64url.StrictBase64url(p.publicKey).value| == 32
    && 0 < p.validFrom <= r.createdAt && r.expiresAt <= p.validThrough <= p.validFrom + 31_622_400_000
    && (p.revokedAt.None? || r.expiresAt < p.revokedAt.value)
  }

  /** Current, for at most a day, with four producers who differ in id, role and key and are in force throughout. */
  ghost predicate Sound(r: Request, now: SafeInt) {
    && 0 < r.createdAt <= now < r.expiresAt <= r.createdAt + 86_400_000
    && IsSha256(r.account) && SectionsHold(r.sections, r.account, r.createdAt)
    && |r.producers| == 4 && (forall i :: 0 <= i < 4 ==> SoundEntry(r, r.producers[i]))
    && (forall i, j :: 0 <= i < j < 4 ==> r.producers[i].id != r.producers[j].id)
    && (forall i, j :: 0 <= i < j < 4 ==> r.producers[i].producer.role != r.producers[j].producer.role)
    && (forall i, j :: 0 <= i < j < 4 ==> r.producers[i].producer.publicKey != r.producers[j].producer.publicKey)
  }

  ghost predicate InRoleOrder(es: seq<Entry>) {
    && |es| == 4
    && es[0].producer.role == DeploymentAnchor && es[1].producer.role == ProviderEventAnchor
    && es[2].producer.role == ProbeTranscript && es[3].producer.role == IndependentReadback
  }

  /** The request with its producers in role order, its digest, and one signing request for each producer. */
  ghost predicate IsPlanFor(v: Services, r: Request, p: Plan) {
    var es := p.request.producers;
    && p.createdAt == r.createdAt && p.expiresAt == r.expiresAt
    && p.request == r.(producers := es) && multiset(es) == multiset(r.producers) && InRoleOrder(es)
    && p.planSha256 == v.sha256Hex(BodyText(p))
    && |p.signingRequests| == 4
    && forall i :: 0 <= i < 4 ==>
         p.signingRequests[i] == SigningRequest(es[i].id, es[i].producer.role, es[i].producer.keyEpoch, p.planSha256)
  }

  lemma DistinctExactly<E, K>(f: E -> K, es: seq<E>)
    ensures Distinct(f, es) <==> forall i, j :: 0 <= i < j < |es| ==> f(es[i]) != f(es[j])
  {
    var t := Tag(f, es);
    if Distinct(f, es) {
      forall i, j | 0 <= i < j < |es| ensures f(es[i]) != f(es[j]) { assert t[i].kind != t[j].kind; }
    }
  }

  lemma SoundEntryExactly(r: Request, e: Entry)
    requires 0 < r.createdAt < r.expiresAt
    ensures SoundEntry(r, e) <==> GoodEntry(r.account, r.createdAt, r.expiresAt, e)
  {
  }

  lemma ProducersSoundExactly(r: Request)
    requires 0 < r.createdAt < r.expiresAt
    ensures GoodProducers(r.account, r.createdAt, r.expiresAt, r.producers) <==>
            && |r.producers| == 4 && (forall i :: 0 <= i < 4 ==> SoundEntry(r, r.producers[i]))
            && (forall i, j :: 0 <= i < j < 4 ==> r.producers[i].id != r.producers[j].id)
            && (forall i, j :: 0 <= i < j < 4 ==> r.producers[i].producer.role != r.producers[j].producer.role)
            && (forall i, j :: 0 <= i < j < 4 ==>
                  r.producers[i].producer.publicKey != r.producers[j].producer.publicKey)
  {
    var es, ok := r.producers, EntryCheck(r.account, r.createdAt, r.expiresAt);
    DistinctExactly(ID, es);
    DistinctExactly(ROLE, es);
    DistinctExactly(KEY, es);
    forall i | 0 <= i < |es| ensures ok(es[i]) <==> SoundEntry(r, es[i]) { SoundEntryExactly(r, es[i]); }
    forall i, j | 0 <= i < j < |es|
      ensures ID(es[i]) == es[i].id && ID(es[j]) == es[j].id
      ensures ROLE(es[i]) == es[i].producer.role && KEY(es[i]) == es[i].producer.publicKey
    {
    }
  }

  lemma SoundExactly(v: Services, r: Request, now: SafeInt)
    ensures GoodRequest(v, r, now) <==> Sound(r, now)
  {
    if 0 < r.createdAt < r.expiresAt { ProducersSoundExactly(r); }
  }

  lemma OrderedByRole(es: seq<Entry>, fs: seq<Entry>)
    requires |es| == 4 && Distinct(ROLE, es) && multiset(fs) == multiset(es) && InRoleOrder(fs)
    ensures fs == ByRole(es)
  {
    var s := ByRole(es);
    ByRolePermutes(es);
    ByRoleInOrder(es, s);
    DistinctPermutes(ROLE, es, s);
    forall i | 0 <= i < 4
      ensures fs[i] == s[i]
    {
      SameMembers(fs, s, fs[i]);
      var j :| 0 <= j < |s| && s[j] == fs[i];
      Apart(ROLE, s, i, j);
    }
  }

  lemma SigningAllIs(digest: Text, es: seq<Entry>, ss: seq<SigningRequest>)
    requires |es| == 4
    ensures ss == SigningAll(digest, es) <==>
            && |ss| == 4
            && forall i :: 0 <= i < 4 ==>
                 ss[i] == SigningRequest(es[i].id, es[i].producer.role, es[i].producer.keyEpoch, digest)
  {
    var all := SigningAll(digest, es);
    forall i | 0 <= i < 4
      ensures all[i] == SigningRequest(es[i].id, es[i].producer.role, es[i].producer.keyEpoch, digest)
    {
      assert all[i] == Signing(digest, es[i]);
    }
  }

  lemma PlanIsFor(v: Services, r: Request, p: Plan)
    requires |r.producers| == 4 && Distinct(ROLE, r.producers)
    ensures p == PlanOf(v, Tidy(r)) <==> IsPlanFor(v, r, p)
  {
    BodyOfPlan(p);
    ByRolePermutes(r.producers);
    ByRoleInOrder(r.producers, ByRole(r.producers));
    if p.request == Tidy(r) {
      SigningAllIs(p.planSha256, p.request.producers, p.signingRequests);
    }
    if IsPlanFor(v, r, p) {
      OrderedByRole(r.producers, p.request.producers);
    }
  }

  /** The builder gives a plan exactly when the request is sound, and exactly the plan for it. */
  lemma BuildsExactly(v: Services, r: Request, now: SafeInt, p: Plan)
    ensures Build(v, r, now) == Some(p) <==> Sound(r, now) && IsPlanFor(v, r, p)
  {
    SoundExactly(v, r, now);
    if GoodRequest(v, r, now) { PlanIsFor(v, r, p); }
  }

  // ---- Approval, exactly ----

  /** For this plan, from its creation to now and until its expiry, with the decision to approve. */
  predicate Timely(p: Plan, r: Review, now: SafeInt) {
    && r.format == Ascii("osl.cipher-store.d2-authority-review-receipt.v1")
    && r.decision == Ascii("approve-registry-import-candidate")
    && r.planSha256 == p.planSha256 && IsSha256(r.reviewId) && IsSha256(r.artifact)
    && p.createdAt <= r.reviewedAt <= now < r.expiresAt == p.expiresAt
  }

  lemma TimelyExactly(p: Plan, r: Review, now: SafeInt)
    requires p.createdAt > 0
    ensures Current(p, r, now) <==> Timely(p, r, now)
  {
  }

  lemma SoundCreation(v: Services, p: Plan, now: SafeInt)
    requires Sound(p.request, now) && IsPlanFor(v, p.request, p)
    ensures p.createdAt > 0
  {
  }

  /** A review is approved exactly when the plan is a plan for its sound request and all four producers sign in time. */
  lemma ApprovalIs(v: Services, p: Plan, r: Review, now: SafeInt)
    ensures Approved(v, p, r, now) <==>
            Sound(p.request, now) && IsPlanFor(v, p.request, p) && Timely(p, r, now) && AllSign(v, p, r)
  {
    ApprovedExactly(v, p, r, now);
    BuildsExactly(v, p.request, now, p);
    if Sound(p.request, now) && IsPlanFor(v, p.request, p) {
      SoundCreation(v, p, now);
      TimelyExactly(p, r, now);
    }
  }

  // ---- The registry of the candidate ----

  lemma {:induction false} RegistryHolds(es: seq<Entry>, j: nat)
    requires j < |es| && forall i, k :: 0 <= i < k < |es| ==> es[i].id != es[k].id
    ensures es[j].id in RegistryOf(es) && RegistryOf(es)[es[j].id] == es[j].producer
  {
    if j < |es| - 1 {
      RegistryHolds(es[..|es| - 1], j);
    }
  }

  lemma RegistryLists(es: seq<Entry>, id: Text, producer: Producer)
    requires forall i, k :: 0 <= i < k < |es| ==> es[i].id != es[k].id
    ensures id in RegistryOf(es) && RegistryOf(es)[id] == producer <==> Entry(id, producer) in es
  {
    if id in RegistryOf(es) {
      var j := RegistryHas(es, id);
      assert es[j] == Entry(id, RegistryOf(es)[id]);
    }
    if Entry(id, producer) in es {
      var j :| 0 <= j < |es| && es[j] == Entry(id, producer);
      RegistryHolds(es, j);
    }
  }

  lemma IdsApart(es: seq<Entry>)
    requires Distinct(ID, es)
    ensures forall i, k :: 0 <= i < k < |es| ==> es[i].id != es[k].id
  {
    DistinctExactly(ID, es);
    forall i, k | 0 <= i < k < |es| ensures es[i].id != es[k].id { assert ID(es[i]) != ID(es[k]); }
  }

  /** The registry of an approved plan has the four producers under their ids, and no other. */
  lemma RegistryExactly(v: Services, p: Plan, r: Review, now: SafeInt, id: Text, producer: Producer)
    requires Approved(v, p, r, now)
    ensures var registry := RegistryOf(p.request.producers);
            id in registry && registry[id] == producer <==> Entry(id, producer) in p.request.producers
  {
    ApprovedProducers(v, p, r, now);
    IdsApart(p.request.producers);
    RegistryLists(p.request.producers, id, producer);
  }

  // ---- Each field under its name ----

  lemma ObjectHas(names: seq<Text>, vs: seq<Json>, i: nat, name: string)
    requires |names| == |vs| && i < |names| && names[i] == Ascii(name)
    ensures Has(Object(names, vs), name, vs[i])
  {
    assert Object(names, vs).members[i] == (names[i], vs[i]);
  }

  lemma EntryReads(e: Entry)
    ensures var v, p := EntryJson(e), e.producer;
            && Has(v, "producer_id", Str(e.id)) && Has(v, "public_key_raw_base64url", Str(p.publicKey))
            && Has(v, "account_sha256", Str(p.account)) && Has(v, "role", Str(RoleName(p.role)))
            && Has(v, "key_epoch", Num(p.keyEpoch)) && Has(v, "valid_from_ms", Num(p.validFrom))
            && Has(v, "valid_through_ms", Num(p.validThrough))
            && Has(v, "revoked_at_ms", if p.revokedAt.Some? then Num(p.revokedAt.value) else Null)
  {
    var ns, vs := ENTRY_NAMES, EntryValues(e);
    ObjectHas(ns, vs, 0, "producer_id");
    ObjectHas(ns, vs, 1, "public_key_raw_base64url");
    ObjectHas(ns, vs, 2, "account_sha256");
    ObjectHas(ns, vs, 3, "role");
    ObjectHas(ns, vs, 4, "key_epoch");
    ObjectHas(ns, vs, 5, "valid_from_ms");
    ObjectHas(ns, vs, 6, "valid_through_ms");
    ObjectHas(ns, vs, 7, "revoked_at_ms");
  }

  lemma DeploymentReads(d: Deployment)
    ensures var v := DeploymentJson(d);
            && Has(v, "account_sha256", Str(d.account)) && Has(v, "worker_version_id", Str(d.worker))
            && Has(v, "traffic_percentage", Num(d.traffic)) && Has(v, "activated_at_ms", Num(d.activatedAt))
            && Has(v, "source", SourceJson(d.source)) && Has(v, "d1_database_id", Str(d.database))
            && Has(v, "migration_observed_at_ms", Num(d.migratedAt)) && Has(v, "r2_bucket_name", Str(d.bucket))
  {
    var ns, vs := DEPLOYMENT_NAMES, DeploymentValues(d);
    ObjectHas(ns, vs, 0, "account_sha256");
    ObjectHas(ns, vs, 1, "worker_version_id");
    ObjectHas(ns, vs, 2, "traffic_percentage");
    ObjectHas(ns, vs, 3, "activated_at_ms");
    ObjectHas(ns, vs, 4, "source");
    ObjectHas(ns, vs, 5, "d1_database_id");
    ObjectHas(ns, vs, 6, "migration_observed_at_ms");
    ObjectHas(ns, vs, 7, "r2_bucket_name");
  }

  lemma SectionReads(s: Source, p: Pin, e: EventIdentity)
    ensures var v := SourceJson(s);
            && Has(v, "commit_sha", Str(s.commit)) && Has(v, "tree_sha", Str(s.tree))
            && Has(v, "manifest_sha256", Str(s.manifest))
    ensures var v := PinJson(p);
            && Has(v, "commit_sha", Str(p.commit)) && Has(v, "tree_sha", Str(p.tree))
            && Has(v, "contract_sha256", Str(p.contract))
    ensures var v := EventJson(e);
            && Has(v, "event_id", Str(e.id)) && Has(v, "event_sha256", Str(e.digest))
            && Has(v, "worker_version_id", Str(e.worker)) && Has(v, "observed_at_ms", Num(e.observedAt))
  {
    ObjectHas(SOURCE_NAMES, SourceValues(s), 0, "commit_sha");
    ObjectHas(SOURCE_NAMES, SourceValues(s), 1, "tree_sha");
    ObjectHas(SOURCE_NAMES, SourceValues(s), 2, "manifest_sha256");
    ObjectHas(PIN_NAMES, PinValues(p), 0, "commit_sha");
    ObjectHas(PIN_NAMES, PinValues(p), 1, "tree_sha");
    ObjectHas(PIN_NAMES, PinValues(p), 2, "contract_sha256");
    ObjectHas(EVENT_NAMES, EventValues(e), 0, "event_id");
    ObjectHas(EVENT_NAMES, EventValues(e), 1, "event_sha256");
    ObjectHas(EVENT_NAMES, EventValues(e), 2, "worker_version_id");
    ObjectHas(EVENT_NAMES, EventValues(e), 3, "observed_at_ms");
  }

  lemma RootsRead(r: Roots)
    ensures var v := RootsJson(r);
            && Has(v, "format", Str(r.format)) && Has(v, "observed_at_ms", Num(r.observedAt))
            && Has(v, "worker_version_id", Str(r.worker)) && Has(v, "d1_sha256", Str(r.d1))
            && Has(v, "r2_sha256", Str(r.r2)) && Has(v, "quota_sha256", Str(r.quota))
  {
    var ns, vs := ROOTS_NAMES, RootsValues(r);
    ObjectHas(ns, vs, 0, "format");
    ObjectHas(ns, vs, 1, "observed_at_ms");
    ObjectHas(ns, vs, 2, "worker_version_id");
    ObjectHas(ns, vs, 3, "d1_sha256");
    ObjectHas(ns, vs, 4, "r2_sha256");
    ObjectHas(ns, vs, 5, "quota_sha256");
  }

  lemma RequestSectionsRead(r: Request)
    ensures var v, s := RequestJson(r), r.sections;
            && Has(v, "admission_contract", PinJson(s.admission))
            && Has(v, "active_deployment", DeploymentJson(s.deployment))
            && Has(v, "provider_event_identity", EventJson(s.event)) && Has(v, "readback_roots", RootsJson(s.roots))
            && Has(v, "admitted_product_client", PinJson(s.client))
  {
    var ns, vs := REQUEST_NAMES, RequestValues(r);
    RequestValuesAre(r);
    ObjectHas(ns, vs, 4, "admission_contract");
    ObjectHas(ns, vs, 6, "active_deployment");
    ObjectHas(ns, vs, 7, "provider_event_identity");
    ObjectHas(ns, vs, 8, "readback_roots");
    ObjectHas(ns, vs, 9, "admitted_product_client");
  }

  lemma RequestReads(r: Request)
    ensures var v := RequestJson(r);
            && Has(v, "format", Str(Ascii("osl.cipher-store.d2-authority-provisioning-request.v1")))
            && Has(v, "created_at_ms", Num(r.createdAt)) && Has(v, "expires_at_ms", Num(r.expiresAt))
            && Has(v, "account_sha256", Str(r.account)) && Has(v, "producers", Arr(Map(EntryJson, r.producers)))
  {
    var ns, vs := REQUEST_NAMES, RequestValues(r);
    RequestValuesAre(r);
    ObjectHas(ns, vs, 0, "format");
    ObjectHas(ns, vs, 1, "created_at_ms");
    ObjectHas(ns, vs, 2, "expires_at_ms");
    ObjectHas(ns, vs, 3, "account_sha256");
    ObjectHas(ns, vs, 5, "producers");
  }

  lemma SigningReads(q: SigningRequest)
    ensures var v := SigningJson(q);
            && Has(v, "producer_id", Str(q.id)) && Has(v, "role", Str(RoleName(q.role)))
            && Has(v, "key_epoch", Num(q.keyEpoch)) && Has(v, "algorithm", Str(Ascii("Ed25519")))
            && Has(v, "signature_domain", Str(Ascii("osl.cipher-store.d2-authority-plan-signature.v1")))
            && Has(v, "plan_sha256", Str(q.plan))
  {
    var ns, vs := SIGNING_NAMES, SigningValues(q);
    ObjectHas(ns, vs, 0, "producer_id");
    ObjectHas(ns, vs, 1, "role");
    ObjectHas(ns, vs, 2, "key_epoch");
    ObjectHas(ns, vs, 3, "algorithm");
    ObjectHas(ns, vs, 4, "signature_domain");
    ObjectHas(ns, vs, 5, "plan_sha256");
  }

  /** The plan says what it says: each field under its own name, with nothing authorised and no signature yet. */
  lemma PlanReads(p: Plan)
    ensures var v := PlanJson(p);
            && Has(v, "format", Str(Ascii("osl.cipher-store.d2-authority-unsigned-plan.v1")))
            && Has(v, "created_at_ms", Num(p.createdAt)) && Has(v, "expires_at_ms", Num(p.expiresAt))
            && Has(v, "production_authorized", Bool(false)) && Has(v, "shipping_registry_mutated", Bool(false))
            && Has(v, "request", RequestJson(p.request)) && Has(v, "plan_sha256", Str(p.planSha256))
            && Has(v, "signing_requests", Arr(Map(SigningJson, p.signingRequests))) && Has(v, "signatures", Arr([]))
  {
    var ns, vs := BODY_NAMES + TAIL_NAMES, PlanValues(p);
    ObjectHas(ns, vs, 0, "format");
    ObjectHas(ns, vs, 1, "created_at_ms");
    ObjectHas(ns, vs, 2, "expires_at_ms");
    ObjectHas(ns, vs, 3, "production_authorized");
    ObjectHas(ns, vs, 4, "shipping_registry_mutated");
    ObjectHas(ns, vs, 5, "request");
    ObjectHas(ns, vs, 6, "plan_sha256");
    ObjectHas(ns, vs, 7, "signing_requests");
    ObjectHas(ns, vs, 8, "signatures");
  }

  /** What is signed: domain, review fields under their names, producer, role and epoch, separated by zeros. */
  lemma MessageReads(r: Review, e: Entry)
    ensures exists b: Json ::
              && ReviewMessage(r, e)
                 == Ascii("osl.cipher-store.d2-authority-plan-signature.v1") + ([0] + (Print(b) + ([0] + (
                      e.id + ([0] + (RoleName(e.producer.role) + ([0] + PrintInt(e.producer.keyEpoch))))))))
              && Has(b, "plan_sha256", Str(r.planSha256)) && Has(b, "review_id", Str(r.reviewId))
              && Has(b, "review_artifact_sha256", Str(r.artifact)) && Has(b, "reviewed_at_ms", Num(r.reviewedAt))
              && Has(b, "expires_at_ms", Num(r.expiresAt))
              && Has(b, "decision", Str(Ascii("approve-registry-import-candidate")))
  {
    var ns, vs := BINDING_NAMES, BindingValues(r);
    ObjectHas(ns, vs, 0, "plan_sha256");
    ObjectHas(ns, vs, 1, "review_id");
    ObjectHas(ns, vs, 2, "review_artifact_sha256");
    ObjectHas(ns, vs, 3, "reviewed_at_ms");
    ObjectHas(ns, vs, 4, "expires_at_ms");
    ObjectHas(ns, vs, 5, "decision");
  }
}
