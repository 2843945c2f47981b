/** Loops that check items one by one and refuse a repeated id, role or key. */
module DistinctLoops {
  import opened Sorting
  import opened WitnessLoops

  /** Items tagged by one of their values. */
  function Tag<E, K>(f: E -> K, es: seq<E>): (r: seq<Seen<(), K, E>>)
    ensures |r| == |es| && forall i :: 0 <= i < |es| ==> r[i] == Seen((), f(es[i]), es[i])
  {
    seq(|es|, i requires 0 <= i < |es| => Seen((), f(es[i]), es[i]))
  }

  ghost predicate Distinct<E, K>(f: E -> K, es: seq<E>) { KindsDiffer(Tag(f, es)) }

  ghost predicate AllOk<E>(ok: E -> bool, es: seq<E>) { forall i :: 0 <= i < |es| ==> ok(es[i]) }

  lemma Apart<E, K>(f: E -> K, es: seq<E>, i: nat, j: nat)
    requires Distinct(f, es) && i < |es| && j < |es| && f(es[i]) == f(es[j])
    ensures i == j
  {
    var t := Tag(f, es);
    assert t[i].kind == t[j].kind;
  }

  /** Three sets grow as the items pass; a repeated value in any of them, or an item that fails, ends the loop. */
  method CheckDistinct<E, A(==), B(==), C(==)>(ok: E -> bool, a: E -> A, b: E -> B, c: E -> C, es: seq<E>)
    returns (r: bool, as': set<A>, bs: set<B>)
    ensures r <==> AllOk(ok, es) && Distinct(a, es) && Distinct(b, es) && Distinct(c, es)
    ensures r ==> as' == KindsTo(Tag(a, es), |es|) && bs == KindsTo(Tag(b, es), |es|)
  {
    ghost var ta, tb, tc := Tag(a, es), Tag(b, es), Tag(c, es);
    as', bs := {}, {};
    var cs: set<C> := {};
    for n := 0 to |es|
      invariant forall i :: 0 <= i < n ==> ok(es[i])
      invariant DifferTo(ta, n) && as' == KindsTo(ta, n)
      invariant DifferTo(tb, n) && bs == KindsTo(tb, n)
      invariant DifferTo(tc, n) && cs == KindsTo(tc, n)
    {
      var e := es[n];
      if !ok(e) {
        return false, as', bs;
      }
      Repeats(ta, n);
      Repeats(tb, n);
      Repeats(tc, n);
      if a(e) in as' || b(e) in bs || c(e) in cs {
        return false, as', bs;
      }
      as', bs, cs := as' + {a(e)}, bs + {b(e)}, cs + {c(e)};
    }
    r := true;
  }

  function Without<E>(es: seq<E>, j: nat): seq<E>
    requires j < |es|
  {
    es[..j] + es[j + 1..]
  }

  lemma WithoutOne<E>(es: seq<E>, j: nat)
    requires j < |es|
    ensures multiset(es) == multiset(Without(es, j)) + multiset{es[j]}
  {
    assert es == es[..j] + [es[j]] + es[j + 1..];
  }

  function Map<E, F>(f: E -> F, es: seq<E>): (r: seq<F>)
    ensures |r| == |es| && forall i :: 0 <= i < |es| ==> r[i] == f(es[i])
  {
    seq(|es|, i requires 0 <= i < |es| => f(es[i]))
  }

  lemma MapWithout<E, F>(f: E -> F, es: seq<E>, j: nat)
    requires j < |es|
    ensures multiset(Map(f, es)) == multiset(Map(f, Without(es, j))) + multiset{f(es[j])}
  {
    WithoutOne(Map(f, es), j);
    assert Without(Map(f, es), j) == Map(f, Without(es, j));
  }

  lemma {:induction false} MapPermutes<E, F>(f: E -> F, es: seq<E>, fs: seq<E>)
    requires multiset(es) == multiset(fs)
    ensures multiset(Map(f, es)) == multiset(Map(f, fs))
    decreases |es|
  {
    SameLength(es, fs);
    if es != [] {
      var j := IndexIn(es, fs, 0);
      WithoutOne(es, 0);
      WithoutOne(fs, j);
      assert multiset(Without(es, 0)) == multiset(es) - multiset{es[0]} == multiset(Without(fs, j));
      MapPermutes(f, Without(es, 0), Without(fs, j));
      MapWithout(f, es, 0);
      MapWithout(f, fs, j);
    }
  }

  lemma TagPermutes<E, K>(f: E -> K, es: seq<E>, fs: seq<E>)
    requires multiset(es) == multiset(fs)
    ensures multiset(Tag(f, es)) == multiset(Tag(f, fs))
  {
    var g := e => Seen((), f(e), e);
    MapPermutes(g, es, fs);
    assert Tag(f, es) == Map(g, es) && Tag(f, fs) == Map(g, fs);
  }

  lemma DistinctPermutes<E, K>(f: E -> K, es: seq<E>, fs: seq<E>)
    requires multiset(es) == multiset(fs)
    ensures Distinct(f, es) <==> Distinct(f, fs)
  {
    TagPermutes(f, es, fs);
    if Distinct(f, es) { DifferPermutes(Tag(f, es), Tag(f, fs)); }
    if Distinct(f, fs) { DifferPermutes(Tag(f, fs), Tag(f, es)); }
  }

  lemma AllOkPermutes<E>(ok: E -> bool, es: seq<E>, fs: seq<E>)
    requires multiset(es) == multiset(fs)
    ensures AllOk(ok, es) <==> AllOk(ok, fs)
  {
    if AllOk(ok, es) {
      forall i | 0 <= i < |fs| ensures ok(fs[i]) { var j := IndexIn(fs, es, i); }
    }
    if AllOk(ok, fs) {
      forall i | 0 <= i < |es| ensures ok(es[i]) { var j := IndexIn(es, fs, i); }
    }
  }
}

/** Offline provisioning of the D2 authority: a plan built from a request, and its four-party review. */
module Provisioning {
  import opened Wrappers
  import opened JsText
  import opened Bytes
  import Base64url
  import opened Sorting
  import opened CanonicalJson
  import opened RawJson
  import opened Admission
  import opened WitnessLoops
  import opened DistinctLoops
  import opened ProvisioningSections

  const MAX_PLAN_LIFETIME := 24 * 60 * 60 * 1000
  const MAX_KEY_LIFETIME := 366 * 24 * 60 * 60 * 1000

  const ROLES: set<Role> := {DeploymentAnchor, ProviderEventAnchor, ProbeTranscript, IndependentReadback}

  function RoleIndex(r: Role): nat {
    match r
    case DeploymentAnchor => 0
    case ProviderEventAnchor => 1
    case ProbeTranscript => 2
    case IndependentReadback => 3
  }

  function RoleName(r: Role): Text {
    match r
    case DeploymentAnchor => Ascii("deployment-anchor")
    case ProviderEventAnchor => Ascii("provider-event-anchor")
    case ProbeTranscript => Ascii("probe-transcript")
    case IndependentReadback => Ascii("independent-readback")
  }

  datatype Entry = Entry(id: Text, producer: Producer)

  datatype Request = Request(
    createdAt: SafeInt, expiresAt: SafeInt, account: Text, sections: Sections, producers: seq<Entry>)

  /** SHA-256 in lower-case hex, and Ed25519. */
  datatype Services = Services(sha256Hex: Text -> Text, verify: (bytes, Text, bytes) -> bool)

  // ---- Producers ----

  predicate InId(u: CodeUnit) { IsDigit(u) || 97 <= u <= 122 }

  /** One character, or three to sixty-four with hyphens allowed inside. */
  predicate IsProducerId(t: Text) {
    && (|t| == 1 || 3 <= |t| <= 64)
    && InId(t[0]) && InId(t[|t| - 1])
    && forall i :: 0 <= i < |t| ==> InId(t[i]) || t[i] == 45
  }

  predicate GoodEntry(account: Text, createdAt: int, expiresAt: int, e: Entry) {
    var p := e.producer;
    && IsProducerId(e.id) && p.account == account
    && Base64url.StrictBase64url(p.publicKey).Some? && |Base64url.StrictBase64url(p.publicKey).value| == 32
    && p.keyEpoch > 0 && p.validFrom > 0 && p.validThrough > 0 && (p.revokedAt.Some? ==> p.revokedAt.value > 0)
    && p.validFrom <= createdAt && expiresAt <= p.validThrough && p.validFrom < p.validThrough
    && p.validThrough - p.validFrom <= MAX_KEY_LIFETIME
    && (p.revokedAt.Some? ==> expiresAt < p.revokedAt.value)
  }

  function EntryCheck(account: Text, createdAt: int, expiresAt: int): Entry -> bool {
    e => GoodEntry(account, createdAt, expiresAt, e)
  }

  const ID: Entry -> Text := (e: Entry) => e.id
  const ROLE: Entry -> Role := (e: Entry) => e.producer.role
  const KEY: Entry -> Text := (e: Entry) => e.producer.publicKey

  ghost predicate GoodProducers(account: Text, createdAt: int, expiresAt: int, es: seq<Entry>) {
    && |es| == 4 && AllOk(EntryCheck(account, createdAt, expiresAt), es)
    && Distinct(ID, es) && Distinct(ROLE, es) && Distinct(KEY, es)
  }

  function Keyed(e: Entry): (int, Entry) { (RoleIndex(e.producer.role), e) }
  function Unkeyed(p: (int, Entry)): Entry { p.1 }
  predicate IndexLeq(a: int, b: int) { a <= b }

  function ByRole(es: seq<Entry>): seq<Entry> { Map(Unkeyed, SortByKey(Map(Keyed, es), IndexLeq)) }

  lemma RolesAreFour()
    ensures |ROLES| == 4
    ensures forall r: Role :: r in ROLES
  {
    forall r: Role
      ensures r in ROLES
    {
      match r
      case DeploymentAnchor =>
      case ProviderEventAnchor =>
      case ProbeTranscript =>
      case IndependentReadback =>
    }
  }

  lemma FourRoles(es: seq<Entry>)
    requires |es| == 4 && Distinct(ROLE, es)
    ensures KindsTo(Tag(ROLE, es), 4) == ROLES
  {
    RolesAreFour();
    KindCount(Tag(ROLE, es), 4);
    SetOfSizeAtLeast(KindsTo(Tag(ROLE, es), 4), ROLES);
  }

  method ValidateProducers(account: Text, createdAt: int, expiresAt: int, es: seq<Entry>)
    returns (r: Option<seq<Entry>>)
    ensures r == if GoodProducers(account, createdAt, expiresAt, es) then Some(ByRole(es)) else None
  {
    if |es| != 4 {
      return None;
    }
    var ok, ids, roles := CheckDistinct(EntryCheck(account, createdAt, expiresAt), ID, ROLE, KEY, es);
    if !ok {
      return None;
    }
    FourRoles(es);
    if !(ROLES <= roles) {
      return None;
    }
    return Some(ByRole(es));
  }

  lemma IndexOrder()
    ensures TotalOrder<int>(IndexLeq)
  {
  }

  lemma IndexInjective(a: Role, b: Role)
    requires RoleIndex(a) == RoleIndex(b)
    ensures a == b
  {
  }

  lemma ByRolePermutes(es: seq<Entry>)
    ensures multiset(ByRole(es)) == multiset(es)
  {
    SortPermutes(Map(Keyed, es), IndexLeq);
    MapPermutes(Unkeyed, SortByKey(Map(Keyed, es), IndexLeq), Map(Keyed, es));
    assert Map(Unkeyed, Map(Keyed, es)) == es;
  }

  /** Sorting by role forgets the order, and forgets it once and for all. */
  lemma ByRoleIgnoresOrder(es: seq<Entry>, fs: seq<Entry>)
    requires multiset(es) == multiset(fs) && Distinct(ROLE, es)
    ensures ByRole(es) == ByRole(fs)
  {
    MapPermutes(Keyed, es, fs);
    IndexOrder();
    var a := Map(Keyed, es);
    forall x, y | x in a && y in a && x.0 == y.0
      ensures x == y
    {
      var i :| 0 <= i < |a| && a[i] == x;
      var j :| 0 <= j < |a| && a[j] == y;
      IndexInjective(es[i].producer.role, es[j].producer.role);
      Apart(ROLE, es, i, j);
    }
    SortIgnoresOrder(a, Map(Keyed, fs), IndexLeq);
  }

  lemma ByRoleTwice(es: seq<Entry>)
    requires Distinct(ROLE, es)
    ensures ByRole(ByRole(es)) == ByRole(es)
  {
    ByRolePermutes(es);
    ByRoleIgnoresOrder(es, ByRole(es));
  }

  lemma GoodProducersPermute(account: Text, createdAt: int, expiresAt: int, es: seq<Entry>, fs: seq<Entry>)
    requires multiset(es) == multiset(fs)
    ensures GoodProducers(account, createdAt, expiresAt, es) <==> GoodProducers(account, createdAt, expiresAt, fs)
  {
    SameLength(es, fs);
    AllOkPermutes(EntryCheck(account, createdAt, expiresAt), es, fs);
    DistinctPermutes(ID, es, fs);
    DistinctPermutes(ROLE, es, fs);
    DistinctPermutes(KEY, es, fs);
  }

  lemma KeyedByRole(es: seq<Entry>, j: nat)
    requires j < |es|
    ensures var keyed := SortByKey(Map(Keyed, es), IndexLeq);
            ByRole(es)[j] == keyed[j].1 && keyed[j].0 == RoleIndex(keyed[j].1.producer.role)
  {
    var keyed := SortByKey(Map(Keyed, es), IndexLeq);
    SortPermutes(Map(Keyed, es), IndexLeq);
    SameMembers(keyed, Map(Keyed, es), keyed[j]);
  }

  lemma Ascends(es: seq<Entry>, i: nat, j: nat)
    requires Distinct(ROLE, es) && i < j < |es|
    ensures RoleIndex(ByRole(es)[i].producer.role) < RoleIndex(ByRole(es)[j].producer.role)
  {
    ByRolePermutes(es);
    DistinctPermutes(ROLE, es, ByRole(es));
    KeyedByRole(es, i);
    KeyedByRole(es, j);
    IndexOrder();
    SortSorts(Map(Keyed, es), IndexLeq);
    assert Tag(ROLE, ByRole(es))[i].kind != Tag(ROLE, ByRole(es))[j].kind;
  }

  lemma Ranked(a: Role, b: Role, c: Role, d: Role)
    requires RoleIndex(a) < RoleIndex(b) < RoleIndex(c) < RoleIndex(d)
    ensures a == DeploymentAnchor && b == ProviderEventAnchor && c == ProbeTranscript && d == IndependentReadback
  {
  }

  /** The four producers come out in the order of their roles. */
  lemma ByRoleInOrder(es: seq<Entry>, s: seq<Entry>)
    requires |es| == 4 && Distinct(ROLE, es) && s == ByRole(es)
    ensures |s| == 4
    ensures s[0].producer.role == DeploymentAnchor && s[1].producer.role == ProviderEventAnchor
    ensures s[2].producer.role == ProbeTranscript && s[3].producer.role == IndependentReadback
  {
    Ascends(es, 0, 1);
    Ascends(es, 1, 2);
    Ascends(es, 2, 3);
    Ranked(s[0].producer.role, s[1].producer.role, s[2].producer.role, s[3].producer.role);
  }

  // ---- Plans ----

  datatype SigningRequest = SigningRequest(id: Text, role: Role, keyEpoch: SafeInt, plan: Text)

  datatype Plan = Plan(
    createdAt: SafeInt, expiresAt: SafeInt, request: Request, planSha256: Text, signingRequests: seq<SigningRequest>)

  function RevokedJson(r: Option<SafeInt>): Json { if r.Some? then Num(r.value) else Null }

  const ENTRY_NAMES: seq<Text> := [
    Ascii("producer_id"), Ascii("public_key_raw_base64url"), Ascii("account_sha256"), Ascii("role"),
    Ascii("key_epoch"), Ascii("valid_from_ms"), Ascii("valid_through_ms"), Ascii("revoked_at_ms")]

  function EntryValues(e: Entry): seq<Json> {
    var p := e.producer;
    [Str(e.id), Str(p.publicKey), Str(p.account), Str(RoleName(p.role)),
     Num(p.keyEpoch), Num(p.validFrom), Num(p.validThrough), RevokedJson(p.revokedAt)]
  }

  function EntryJson(e: Entry): Json { Object(ENTRY_NAMES, EntryValues(e)) }

  const REQUEST_FORMAT: Text := Ascii("osl.cipher-store.d2-authority-provisioning-request.v1")
  const PLAN_FORMAT: Text := Ascii("osl.cipher-store.d2-authority-unsigned-plan.v1")
  const SIGNING_DOMAIN: Text := Ascii("osl.cipher-store.d2-authority-plan-signature.v1")

  const REQUEST_NAMES: seq<Text> := [
    Ascii("format"), Ascii("created_at_ms"), Ascii("expires_at_ms"), Ascii("account_sha256"),
    Ascii("admission_contract"), Ascii("producers"), Ascii("active_deployment"),
    Ascii("provider_event_identity"), Ascii("readback_roots"), Ascii("admitted_product_client")]

  function RequestValues(r: Request): seq<Json> {
    var s := r.sections;
    [Str(REQUEST_FORMAT), Num(r.createdAt), Num(r.expiresAt), Str(r.account),
     PinJson(s.admission), Arr(Map(EntryJson, r.producers)), DeploymentJson(s.deployment),
     EventJson(s.event), RootsJson(s.roots), PinJson(s.client)]
  }

  function RequestJson(r: Request): Json { Object(REQUEST_NAMES, RequestValues(r)) }

  const SIGNING_NAMES: seq<Text> := [
    Ascii("producer_id"), Ascii("role"), Ascii("key_epoch"), Ascii("algorithm"), Ascii("signature_domain"),
    Ascii("plan_sha256"), Ascii("required_review_fields")]

  function SigningValues(q: SigningRequest): seq<Json> {
    [Str(q.id), Str(RoleName(q.role)), Num(q.keyEpoch), Str(ED25519), Str(SIGNING_DOMAIN), Str(q.plan),
     Arr([Str(Ascii("review_id")), Str(Ascii("review_artifact_sha256")), Str(Ascii("reviewed_at_ms")),
          Str(Ascii("expires_at_ms")), Str(Ascii("decision"))])]
  }

  function SigningJson(q: SigningRequest): Json { Object(SIGNING_NAMES, SigningValues(q)) }

  const BODY_NAMES: seq<Text> := [
    Ascii("format"), Ascii("created_at_ms"), Ascii("expires_at_ms"),
    Ascii("production_authorized"), Ascii("shipping_registry_mutated"), Ascii("request")]

  function BodyValues(createdAt: SafeInt, expiresAt: SafeInt, r: Request): seq<Json> {
    [Str(PLAN_FORMAT), Num(createdAt), Num(expiresAt), Bool(false), Bool(false), RequestJson(r)]
  }

  const TAIL_NAMES: seq<Text> := [Ascii("plan_sha256"), Ascii("signing_requests"), Ascii("signatures")]

  function TailValues(p: Plan): seq<Json> { [Str(p.planSha256), Arr(Map(SigningJson, p.signingRequests)), Arr([])] }

  function PlanJson(p: Plan): Json {
    Object(BODY_NAMES + TAIL_NAMES, BodyValues(p.createdAt, p.expiresAt, p.request) + TailValues(p))
  }

  ghost predicate GoodRequest(v: Services, r: Request, now: SafeInt) {
    && now > 0 && r.createdAt > 0 && r.expiresAt > 0
    && r.createdAt <= now < r.expiresAt && r.createdAt < r.expiresAt && r.expiresAt - r.createdAt <= MAX_PLAN_LIFETIME
    && IsSha256(r.account) && SectionsHold(r.sections, r.account, r.createdAt)
    && GoodProducers(r.account, r.createdAt, r.expiresAt, r.producers)
  }

  /** The request with its producers in role order. */
  function Tidy(r: Request): Request { r.(producers := ByRole(r.producers)) }

  function PlanDigest(v: Services, r: Request): Text {
    v.sha256Hex(Print(Object(BODY_NAMES, BodyValues(r.createdAt, r.expiresAt, r))))
  }

  function Signing(digest: Text, e: Entry): SigningRequest {
    SigningRequest(e.id, e.producer.role, e.producer.keyEpoch, digest)
  }

  function SigningAll(digest: Text, es: seq<Entry>): seq<SigningRequest> { Map(e => Signing(digest, e), es) }

  /** The plan of a request that is already tidy. */
  function PlanOf(v: Services, r: Request): Plan {
    var digest := PlanDigest(v, r);
    Plan(r.createdAt, r.expiresAt, r, digest, SigningAll(digest, r.producers))
  }

  ghost function Build(v: Services, r: Request, now: SafeInt): Option<Plan> {
    if GoodRequest(v, r, now) then Some(PlanOf(v, Tidy(r))) else None
  }

  method ValidateRequest(v: Services, r: Request, now: SafeInt) returns (q: Option<Request>)
    ensures q == if GoodRequest(v, r, now) then Some(Tidy(r)) else None
  {
    if now <= 0 || r.createdAt <= 0 || r.expiresAt <= 0 {
      return None;
    }
    if r.createdAt > now || r.expiresAt <= now || r.expiresAt <= r.createdAt
       || r.expiresAt - r.createdAt > MAX_PLAN_LIFETIME {
      return None;
    }
    if !IsSha256(r.account) || !SectionsHold(r.sections, r.account, r.createdAt) {
      return None;
    }
    var producers := ValidateProducers(r.account, r.createdAt, r.expiresAt, r.producers);
    if producers.None? {
      return None;
    }
    return Some(r.(producers := producers.value));
  }

  method BuildPlan(v: Services, r: Request, now: SafeInt) returns (p: Option<Plan>)
    ensures p == Build(v, r, now)
  {
    var q := ValidateRequest(v, r, now);
    return if q.None? then None else Some(PlanOf(v, q.value));
  }

  /** The rebuilt plan, when it prints like the plan given. */
  ghost function Validate(v: Services, p: Plan, now: SafeInt): Option<Plan> {
    var rebuilt := Build(v, p.request, now);
    if rebuilt.None? || Print(PlanJson(rebuilt.value)) != Print(PlanJson(p)) then None else rebuilt
  }

  method ValidatePlan(v: Services, p: Plan, now: SafeInt) returns (q: Option<Plan>)
    ensures q == Validate(v, p, now)
  {
    q := BuildPlan(v, p.request, now);
    if q.Some? && Print(PlanJson(q.value)) != Print(PlanJson(p)) {
      q := None;
    }
  }

  // ---- What the builder promises ----

  /** The order in which the producers are listed changes neither the verdict nor the plan. */
  lemma BuilderIgnoresOrder(v: Services, r: Request, producers: seq<Entry>, now: SafeInt)
    requires multiset(r.producers) == multiset(producers)
    ensures Build(v, r, now) == Build(v, r.(producers := producers), now)
  {
    GoodProducersPermute(r.account, r.createdAt, r.expiresAt, r.producers, producers);
    if GoodRequest(v, r, now) {
      ByRoleIgnoresOrder(r.producers, producers);
    }
  }

  /** Building again from a built plan's own request gives the plan, whenever the request is still current. */
  lemma BuilderIsIdempotent(v: Services, r: Request, now: SafeInt, later: SafeInt)
    requires Build(v, r, now).Some?
    ensures var p := Build(v, r, now).value;
            Build(v, p.request, later) == if r.createdAt <= later < r.expiresAt then Some(p) else None
  {
    ByRolePermutes(r.producers);
    GoodProducersPermute(r.account, r.createdAt, r.expiresAt, r.producers, ByRole(r.producers));
    ByRoleTwice(r.producers);
  }

  lemma ValidateFollows(v: Services, p: Plan, now: SafeInt)
    ensures Build(v, p.request, now) == Some(p) ==> Validate(v, p, now) == Some(p)
    ensures Build(v, p.request, now) == None ==> Validate(v, p, now) == None
  {
  }

  /** A built plan validates at exactly the times from its creation to just before its expiry. */
  lemma BuiltPlanValidates(v: Services, r: Request, now: SafeInt, later: SafeInt, p: Plan)
    requires Build(v, r, now) == Some(p)
    ensures Validate(v, p, later) == if p.createdAt <= later < p.expiresAt then Some(p) else None
  {
    BuilderIsIdempotent(v, r, now, later);
    ValidateFollows(v, p, later);
  }
}
