/** The sections of a provisioning request: contract pins, active deployment, provider event, readback roots. */
module ProvisioningSections {
  import opened JsText
  import opened Sorting
  import opened CanonicalJson
  import opened RawJson

  datatype Pin = Pin(commit: Text, tree: Text, contract: Text)
  datatype Source = Source(commit: Text, tree: Text, manifest: Text)

  datatype Deployment = Deployment(
    account: Text, worker: Text, traffic: SafeInt, activatedAt: SafeInt, source: Source,
    database: Text, migratedAt: SafeInt, bucket: Text)

  datatype EventIdentity = EventIdentity(id: Text, digest: Text, worker: Text, observedAt: SafeInt)
  datatype Roots = Roots(format: Text, observedAt: SafeInt, worker: Text, d1: Text, r2: Text, quota: Text)

  datatype Sections = Sections(admission: Pin, client: Pin, deployment: Deployment, event: EventIdentity, roots: Roots)

  // ---- The checks ----

  const RELEASE_COMMIT: Text := Ascii("5a2bad492dec2d90094d2c4a797124366d7dea32")
  const RELEASE_TREE: Text := Ascii("18149f3dbb14bae687cea33a56f624171958c8cd")
  const RELEASE_MANIFEST: Text := Ascii("7888abf28374e3c4097addac8653422205d2ced15ed1892e37fc2de1f1024abd")
  const DATABASE: Text := Ascii("be3d31f1-f6b4-4d6e-8ede-74514950b9e2")
  const BUCKET: Text := Ascii("osl-cipher-attachments-prod")
  const ROOTS_FORMAT: Text := Ascii("osl.cipher-store.d2-authority-readback-roots.v1")

  predicate IsHex(u: CodeUnit) { IsDigit(u) || 97 <= u <= 102 }

  predicate AllHex(t: Text) { forall i :: 0 <= i < |t| ==> IsHex(t[i]) }

  predicate IsGitOid(t: Text) { |t| == 40 && AllHex(t) }

  predicate IsEventId(t: Text) { 32 <= |t| <= 128 && AllHex(t) }

  predicate IsHyphen(i: nat) { i == 8 || i == 13 || i == 18 || i == 23 }

  /** A lower-case UUID of version 1 to 5 and the usual variant. */
  predicate IsWorkerVersion(t: Text) {
    && |t| == 36
    && (forall i :: 0 <= i < 36 ==> if IsHyphen(i) then t[i] == 45 else IsHex(t[i]))
    && 49 <= t[14] <= 53 && (56 <= t[19] <= 57 || 97 <= t[19] <= 98)
  }

  predicate PinHolds(p: Pin) { IsGitOid(p.commit) && IsGitOid(p.tree) && IsSha256(p.contract) }

  predicate DeploymentHolds(d: Deployment, account: Text) {
    && d.activatedAt > 0 && d.migratedAt > 0
    && d.account == account && IsWorkerVersion(d.worker) && d.traffic == 100
    && d.source == Source(RELEASE_COMMIT, RELEASE_TREE, RELEASE_MANIFEST)
    && d.database == DATABASE && d.bucket == BUCKET && d.migratedAt < d.activatedAt
  }

  predicate EventHolds(e: EventIdentity, d: Deployment, createdAt: SafeInt) {
    && e.observedAt > 0 && IsEventId(e.id) && e.worker == d.worker && IsSha256(e.digest)
    && d.activatedAt <= e.observedAt <= createdAt
  }

  predicate RootsHold(r: Roots, d: Deployment, e: EventIdentity, createdAt: SafeInt) {
    && r.observedAt > 0 && IsSha256(r.d1) && IsSha256(r.r2) && IsSha256(r.quota)
    && r.format == ROOTS_FORMAT && r.worker == d.worker && e.observedAt <= r.observedAt <= createdAt
    && |{r.d1, r.r2, r.quota}| == 3
  }

  predicate SectionsHold(s: Sections, account: Text, createdAt: SafeInt) {
    && PinHolds(s.admission) && PinHolds(s.client)
    && DeploymentHolds(s.deployment, account) && s.deployment.activatedAt <= createdAt
    && EventHolds(s.event, s.deployment, createdAt)
    && RootsHold(s.roots, s.deployment, s.event, createdAt)
  }

  lemma ThreeApart<T>(a: T, b: T, c: T)
    ensures |{a, b, c}| == 3 <==> a != b && a != c && b != c
  {
    if a == b || b == c { assert {a, b, c} == {a, c}; }
    if a == c { assert {a, b, c} == {a, b}; }
  }

  /** What holds of the sections puts them in order of time, on one worker, with three different roots. */
  lemma SectionsAreInOrder(s: Sections, account: Text, createdAt: SafeInt)
    requires SectionsHold(s, account, createdAt)
    ensures 0 < s.deployment.migratedAt < s.deployment.activatedAt <= s.event.observedAt
    ensures s.event.observedAt <= s.roots.observedAt <= createdAt
    ensures s.deployment.worker == s.event.worker == s.roots.worker
    ensures s.roots.d1 != s.roots.r2 && s.roots.d1 != s.roots.quota && s.roots.r2 != s.roots.quota
  {
    ThreeApart(s.roots.d1, s.roots.r2, s.roots.quota);
  }

  predicate Hex40(t: Text) { |t| == 40 && forall i :: 0 <= i < 40 ==> 48 <= t[i] <= 57 || 97 <= t[i] <= 102 }

  /** The two contracts, the release that is deployed, and the four resources it runs on. */
  predicate RightRelease(s: Sections, account: Text) {
    var a, c, d := s.admission, s.client, s.deployment;
    && Hex40(a.commit) && Hex40(a.tree) && IsSha256(a.contract)
    && Hex40(c.commit) && Hex40(c.tree) && IsSha256(c.contract)
    && d.account == account && d.traffic == 100 && IsWorkerVersion(d.worker)
    && d.source.commit == Ascii("5a2bad492dec2d90094d2c4a797124366d7dea32")
    && d.source.tree == Ascii("18149f3dbb14bae687cea33a56f624171958c8cd")
    && d.source.manifest == Ascii("7888abf28374e3c4097addac8653422205d2ced15ed1892e37fc2de1f1024abd")
    && d.database == Ascii("be3d31f1-f6b4-4d6e-8ede-74514950b9e2") && d.bucket == Ascii("osl-cipher-attachments-prod")
  }

  /** In order of time, on one worker version, with three different roots. */
  predicate InSequence(s: Sections, createdAt: SafeInt) {
    var d, e, r := s.deployment, s.event, s.roots;
    && 0 < d.migratedAt < d.activatedAt <= e.observedAt <= r.observedAt <= createdAt
    && d.worker == e.worker == r.worker
    && 32 <= |e.id| <= 128 && AllHex(e.id) && IsSha256(e.digest)
    && r.format == Ascii("osl.cipher-store.d2-authority-readback-roots.v1")
    && IsSha256(r.d1) && IsSha256(r.r2) && IsSha256(r.quota)
    && r.d1 != r.r2 && r.d1 != r.quota && r.r2 != r.quota
  }

  lemma SectionsExactly(s: Sections, account: Text, createdAt: SafeInt)
    ensures SectionsHold(s, account, createdAt) <==> RightRelease(s, account) && InSequence(s, createdAt)
  {
    ThreeApart(s.roots.d1, s.roots.r2, s.roots.quota);
  }

  // ---- As JSON ----

  function Object(names: seq<Text>, values: seq<Json>): Json
    requires |names| == |values|
  {
    Obj(seq(|names|, i requires 0 <= i < |names| => (names[i], values[i])))
  }

  const PIN_NAMES: seq<Text> := [Ascii("commit_sha"), Ascii("tree_sha"), Ascii("contract_sha256")]

  function PinValues(p: Pin): seq<Json> { [Str(p.commit), Str(p.tree), Str(p.contract)] }

  function PinJson(p: Pin): Json { Object(PIN_NAMES, PinValues(p)) }

  const SOURCE_NAMES: seq<Text> := [Ascii("commit_sha"), Ascii("tree_sha"), Ascii("manifest_sha256")]

  function SourceValues(s: Source): seq<Json> { [Str(s.commit), Str(s.tree), Str(s.manifest)] }

  function SourceJson(s: Source): Json { Object(SOURCE_NAMES, SourceValues(s)) }

  const DEPLOYMENT_NAMES: seq<Text> := [
    Ascii("account_sha256"), Ascii("worker_version_id"), Ascii("traffic_percentage"), Ascii("activated_at_ms"),
    Ascii("source"), Ascii("d1_database_id"), Ascii("migration_observed_at_ms"), Ascii("r2_bucket_name")]

  function DeploymentValues(d: Deployment): seq<Json> {
    [Str(d.account), Str(d.worker), Num(d.traffic), Num(d.activatedAt),
     SourceJson(d.source), Str(d.database), Num(d.migratedAt), Str(d.bucket)]
  }

  function DeploymentJson(d: Deployment): Json { Object(DEPLOYMENT_NAMES, DeploymentValues(d)) }

  const EVENT_NAMES: seq<Text> := [
    Ascii("event_id"), Ascii("event_sha256"), Ascii("worker_version_id"), Ascii("observed_at_ms")]

  function EventValues(e: EventIdentity): seq<Json> { [Str(e.id), Str(e.digest), Str(e.worker), Num(e.observedAt)] }

  function EventJson(e: EventIdentity): Json { Object(EVENT_NAMES, EventValues(e)) }

  const ROOTS_NAMES: seq<Text> := [
    Ascii("format"), Ascii("observed_at_ms"), Ascii("worker_version_id"),
    Ascii("d1_sha256"), Ascii("r2_sha256"), Ascii("quota_sha256")]

  function RootsValues(r: Roots): seq<Json> {
    [Str(r.format), Num(r.observedAt), Str(r.worker), Str(r.d1), Str(r.r2), Str(r.quota)]
  }

  function RootsJson(r: Roots): Json { Object(ROOTS_NAMES, RootsValues(r)) }

  // ---- The canonical text decides each section ----

  lemma ObjectDecided(names: seq<Text>, vs: seq<Json>, ws: seq<Json>)
    requires |names| == |vs| == |ws| && Normal(Object(names, vs)) == Normal(Object(names, ws))
    ensures forall i :: 0 <= i < |names| ==> Normal(vs[i]) == Normal(ws[i])
  {
    var a, b := Object(names, vs).members, Object(names, ws).members;
    var na, nb := NormalMembers(a), NormalMembers(b);
    assert Keys(na) == names == Keys(nb);
    SortInjective(na, nb, TextLeq);
    forall i | 0 <= i < |names|
      ensures Normal(vs[i]) == Normal(ws[i])
    {
      assert a[i].1 < a[i] && b[i].1 < b[i];
      assert na[i] == (a[i].0, Normal(a[i].1)) && nb[i] == (b[i].0, Normal(b[i].1));
    }
  }

  lemma NumbersDecided(m: SafeInt, n: SafeInt)
    requires Normal(Num(m)) == Normal(Num(n))
    ensures m == n
  {
  }

  lemma TextsDecided(s: Text, t: Text)
    requires Normal(Str(s)) == Normal(Str(t))
    ensures s == t
  {
  }

  lemma PinDecided(p: Pin, q: Pin)
    requires Normal(PinJson(p)) == Normal(PinJson(q))
    ensures p == q
  {
    var vs, ws := PinValues(p), PinValues(q);
    ObjectDecided(PIN_NAMES, vs, ws);
    assert Normal(vs[0]) == Normal(ws[0]) && Normal(vs[1]) == Normal(ws[1]) && Normal(vs[2]) == Normal(ws[2]);
  }

  lemma SourceDecided(p: Source, q: Source)
    requires Normal(SourceJson(p)) == Normal(SourceJson(q))
    ensures p == q
  {
    var vs, ws := SourceValues(p), SourceValues(q);
    ObjectDecided(SOURCE_NAMES, vs, ws);
    assert Normal(vs[0]) == Normal(ws[0]) && Normal(vs[1]) == Normal(ws[1]) && Normal(vs[2]) == Normal(ws[2]);
  }

  lemma DeploymentDecided(d: Deployment, e: Deployment)
    requires Normal(DeploymentJson(d)) == Normal(DeploymentJson(e))
    ensures d == e
  {
    var vs, ws := DeploymentValues(d), DeploymentValues(e);
    ObjectDecided(DEPLOYMENT_NAMES, vs, ws);
    assert Normal(vs[0]) == Normal(ws[0]) && Normal(vs[1]) == Normal(ws[1]) && Normal(vs[2]) == Normal(ws[2]);
    assert Normal(vs[3]) == Normal(ws[3]) && Normal(vs[4]) == Normal(ws[4]) && Normal(vs[5]) == Normal(ws[5]);
    assert Normal(vs[6]) == Normal(ws[6]) && Normal(vs[7]) == Normal(ws[7]);
    SourceDecided(d.source, e.source);
  }

  lemma EventDecided(d: EventIdentity, e: EventIdentity)
    requires Normal(EventJson(d)) == Normal(EventJson(e))
    ensures d == e
  {
    var vs, ws := EventValues(d), EventValues(e);
    ObjectDecided(EVENT_NAMES, vs, ws);
    assert Normal(vs[0]) == Normal(ws[0]) && Normal(vs[1]) == Normal(ws[1]);
    assert Normal(vs[2]) == Normal(ws[2]) && Normal(vs[3]) == Normal(ws[3]);
  }

  lemma RootsDecided(r: Roots, q: Roots)
    requires Normal(RootsJson(r)) == Normal(RootsJson(q))
    ensures r == q
  {
    var vs, ws := RootsValues(r), RootsValues(q);
    ObjectDecided(ROOTS_NAMES, vs, ws);
    assert Normal(vs[0]) == Normal(ws[0]) && Normal(vs[1]) == Normal(ws[1]) && Normal(vs[2]) == Normal(ws[2]);
    assert Normal(vs[3]) == Normal(ws[3]) && Normal(vs[4]) == Normal(ws[4]) && Normal(vs[5]) == Normal(ws[5]);
  }
}
