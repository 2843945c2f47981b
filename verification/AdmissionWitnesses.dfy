/** The eight probe transcripts and eight readbacks of an admission. */
module AdmissionWitnesses {
  import opened Wrappers
  import opened JsText
  import Base64url
  import opened Sorting
  import opened CanonicalJson
  import opened Admission
  import opened WitnessLoops

  type Probes = seq<Seen<Text, Kind, Probe>>
  type Readbacks = seq<Seen<Text, Kind, Readback>>

  // ---- Reading the statements ----

  /** A verified transcript by a producer of the right role and account, observed in time. */
  function SeeProbe(c: Checks, ctx: Context, s: Statement): Option<Seen<Text, Kind, Probe>> {
    if !Verified(c, ctx, ProbeTranscript, s) || ctx.registry[s.producerId].account != ctx.account then None
    else
      var p := c.readProbe(s.payload);
      if p.None? || p.value.observedAt <= 0 then None
      else if p.value.observedAt < ctx.eventObservedAt || p.value.observedAt > ctx.challenge.expiresAt then None
      else Some(Seen(s.producerId, p.value.kind, p.value))
  }

  function SeeReadback(c: Checks, ctx: Context, s: Statement): Option<Seen<Text, Kind, Readback>> {
    if !Verified(c, ctx, IndependentReadback, s) || ctx.registry[s.producerId].account != ctx.account then None
    else
      var r := c.readReadback(s.payload);
      if r.None? then None else Some(Seen(s.producerId, r.value.kind, r.value))
  }

  ghost predicate SeenProbes(c: Checks, ctx: Context, ss: seq<Statement>, ps: Probes) {
    |ss| == |ps| && forall i :: 0 <= i < |ss| ==> SeeProbe(c, ctx, ss[i]) == Some(ps[i])
  }

  ghost predicate SeenReadbacks(c: Checks, ctx: Context, ss: seq<Statement>, rs: Readbacks) {
    |ss| == |rs| && forall i :: 0 <= i < |ss| ==> SeeReadback(c, ctx, ss[i]) == Some(rs[i])
  }

  /** Every producer named is registered for its role, and the items carry their kinds. */
  ghost predicate Settled(ctx: Context, ps: Probes, rs: Readbacks) {
    && ctx.deploymentProducer in ctx.registry && ctx.registry[ctx.deploymentProducer].role == DeploymentAnchor
    && ctx.eventProducer in ctx.registry && ctx.registry[ctx.eventProducer].role == ProviderEventAnchor
    && (forall i :: 0 <= i < |ps| ==> ps[i].kind == ps[i].item.kind)
    && (forall i :: 0 <= i < |rs| ==> rs[i].kind == rs[i].item.kind)
    && (forall i :: 0 <= i < |ps| ==> RoleOf(ctx.registry, ps[i].producer) == Some(ProbeTranscript))
    && (forall i :: 0 <= i < |rs| ==> RoleOf(ctx.registry, rs[i].producer) == Some(IndependentReadback))
  }

  function RoleOf(registry: Registry, id: Text): Option<Role> {
    if id in registry then Some(registry[id].role) else None
  }

  function KeyOf(registry: Registry, id: Text): Text { if id in registry then registry[id].publicKey else [] }

  /** The key of a registered producer is 32 bytes under the decoder that ignores spare bits. */
  predicate HasKey(registry: Registry, id: Text) {
    && id in registry && Base64url.AllInAlphabet(KeyOf(registry, id))
    && |Base64url.Decode(KeyOf(registry, id))| == 32
  }

  ghost predicate KeysHold(ctx: Context, ps: Probes, rs: Readbacks) {
    && HasKey(ctx.registry, ctx.deploymentProducer) && HasKey(ctx.registry, ctx.eventProducer)
    && (forall i :: 0 <= i < |ps| ==> HasKey(ctx.registry, ps[i].producer))
    && (forall i :: 0 <= i < |rs| ==> HasKey(ctx.registry, rs[i].producer))
  }

  /** What verification of the statements leaves settled. */
  lemma VerifiedIsSettled(c: Checks, ctx: Context, d: Statement, e: Statement,
                          probes: seq<Statement>, readbacks: seq<Statement>, ps: Probes, rs: Readbacks)
    requires Verified(c, ctx, DeploymentAnchor, d) && d.producerId == ctx.deploymentProducer
    requires Verified(c, ctx, ProviderEventAnchor, e) && e.producerId == ctx.eventProducer
    requires SeenProbes(c, ctx, probes, ps) && SeenReadbacks(c, ctx, readbacks, rs)
    ensures Settled(ctx, ps, rs) && KeysHold(ctx, ps, rs)
  {
    forall i | 0 <= i < |ps|
      ensures ps[i].kind == ps[i].item.kind && RoleOf(ctx.registry, ps[i].producer) == Some(ProbeTranscript)
      ensures HasKey(ctx.registry, ps[i].producer)
    {
      assert SeeProbe(c, ctx, probes[i]) == Some(ps[i]);
    }
    forall i | 0 <= i < |rs|
      ensures rs[i].kind == rs[i].item.kind && RoleOf(ctx.registry, rs[i].producer) == Some(IndependentReadback)
      ensures HasKey(ctx.registry, rs[i].producer)
    {
      assert SeeReadback(c, ctx, readbacks[i]) == Some(rs[i]);
    }
  }

  // ---- What is required of the witnesses ----

  /** Same id and digest, observed after the probe and in time. */
  predicate FollowsUp(expiresAt: int, p: Probe, r: Readback) {
    r.id == p.id && r.digest == p.digest && r.observedAt > 0 && p.observedAt <= r.observedAt <= expiresAt
  }

  function AnchorOf(r: Readback): Anchor { Anchor(r.id, r.kind, r.digest, r.parts) }

  predicate Confirms(authority: Authority, n: nat, r: Readback) { authority(n, r.id) == Some(AnchorOf(r)) }

  function Fits(expiresAt: int): (Probe, Readback) -> bool { (p, r) => FollowsUp(expiresAt, p, r) }
  function Asked(authority: Authority): (nat, Readback) -> bool { (n: nat, r: Readback) => Confirms(authority, n, r) }
  function Key(registry: Registry): Text -> Text { id => KeyOf(registry, id) }

  ghost function ProducerIds(ctx: Context, ps: Probes, rs: Readbacks): set<Text> {
    {ctx.deploymentProducer, ctx.eventProducer} + Signers(ps) + Signers(rs)
  }

  function RootItem(e: (Kind, Probe)): Json {
    Obj([(Ascii("kind"), Str(KindName(e.0))), (Ascii("probe_id"), Str(e.1.id)),
         (Ascii("transcript_bytes_sha256"), Str(e.1.digest))])
  }

  function AnchorItem(e: (ProbeId, Anchor)): Json {
    var a := e.1;
    Obj([(Ascii("probe_id"), Str(a.id)), (Ascii("kind"), Str(KindName(a.kind))),
         (Ascii("transcript_bytes_sha256"), Str(a.digest)),
         (Ascii("d1_readback_base64url"), Str(a.parts.d1)), (Ascii("d1_readback_sha256"), Str(a.parts.d1Digest)),
         (Ascii("r2_readback_base64url"), Str(a.parts.r2)), (Ascii("r2_readback_sha256"), Str(a.parts.r2Digest)),
         (Ascii("quota_readback_base64url"), Str(a.parts.quota)),
         (Ascii("quota_readback_sha256"), Str(a.parts.quotaDigest))])
  }

  function Anchors(rs: Readbacks): (r: seq<(ProbeId, Anchor)>)
    ensures |r| == |rs| && forall i :: 0 <= i < |rs| ==> r[i] == (rs[i].item.id, AnchorOf(rs[i].item))
  {
    seq(|rs|, i requires 0 <= i < |rs| => (rs[i].item.id, AnchorOf(rs[i].item)))
  }

  function Items<E>(item: E -> Json, es: seq<E>): seq<Json> { seq(|es|, i requires 0 <= i < |es| => item(es[i])) }

  /** The value whose digest is the transcript root, from the probe map in insertion order. */
  function RootInput(c: Checks, entries: seq<(Kind, Probe)>): Json {
    Arr(Items(RootItem, SortByKey(entries, c.kindOrder)))
  }

  /** The value whose digest is the authority snapshot, from the anchors in the order they were loaded. */
  function SnapshotInput(c: Checks, ctx: Context, anchors: seq<(ProbeId, Anchor)>): Json {
    Obj([(Ascii("active"), ctx.active), (Ascii("event"), ctx.event),
         (Ascii("readbacks"), Arr(Items(AnchorItem, SortByKey(anchors, c.idOrder))))])
  }

  ghost predicate Complete(ctx: Context, authority: Authority, ps: Probes, rs: Readbacks) {
    && |ps| == KIND_COUNT && |rs| == KIND_COUNT
    && KindsDiffer(ps) && KindsDiffer(rs)
    && AllFollow(Fits(ctx.challenge.expiresAt), Asked(authority), ps, rs)
    && |ProducerIds(ctx, ps, rs)| == 4 && |Image(Key(ctx.registry), ProducerIds(ctx, ps, rs))| == 4
  }

  ghost predicate Acceptable(c: Checks, ctx: Context, authority: Authority, ps: Probes, rs: Readbacks) {
    && Complete(ctx, authority, ps, rs)
    && c.sha256Hex(Print(RootInput(c, Entries(ps)))) == ctx.challenge.transcriptRoot
    && c.sha256Hex(Print(SnapshotInput(c, ctx, Anchors(rs)))) == ctx.challenge.authoritySnapshot
  }

  datatype Witness = Witness(transcriptRoot: Text, authoritySnapshot: Text)

  method CountWitnesses(ctx: Context, authority: Authority, ps: Probes, rs: Readbacks)
    returns (ok: bool, entries: seq<(Kind, Probe)>)
    requires Settled(ctx, ps, rs)
    ensures ok <==> Complete(ctx, authority, ps, rs)
    ensures ok ==> entries == Entries(ps)
  {
    entries := [];
    if |ps| != KIND_COUNT || |rs| != KIND_COUNT {
      return false, entries;
    }
    var key := Key(ctx.registry);
    var first := {ctx.deploymentProducer, ctx.eventProducer};
    var firstKeys := {ctx.registry[ctx.deploymentProducer].publicKey, ctx.registry[ctx.eventProducer].publicKey};
    assert firstKeys == Image(key, first);
    var found, ids, keys, kinds;
    ok, found, entries, ids, keys := FillMap(key, first, firstKeys, ps);
    if !ok {
      return;
    }
    ok, kinds, ids, keys := MatchAll(key, Fits(ctx.challenge.expiresAt), Asked(authority), ps, found, rs, ids, keys);
    ok := ok && |found| == KIND_COUNT && |kinds| == KIND_COUNT && |ids| == 4 && |keys| == 4;
  }

  method ValidateWitnesses(c: Checks, ctx: Context, authority: Authority, ps: Probes, rs: Readbacks)
    returns (r: Option<Witness>)
    requires Settled(ctx, ps, rs)
    ensures r.Some? <==> Acceptable(c, ctx, authority, ps, rs)
    ensures r.Some? ==> r.value == Witness(ctx.challenge.transcriptRoot, ctx.challenge.authoritySnapshot)
  {
    var ok, entries := CountWitnesses(ctx, authority, ps, rs);
    if !ok {
      return None;
    }
    var root := c.sha256Hex(Print(RootInput(c, entries)));
    if root != ctx.challenge.transcriptRoot {
      return None;
    }
    var snapshot := c.sha256Hex(Print(SnapshotInput(c, ctx, Anchors(rs))));
    if snapshot != ctx.challenge.authoritySnapshot {
      return None;
    }
    return Some(Witness(root, snapshot));
  }

  // ---- What acceptance means ----

  lemma KindsAreEight()
    ensures |KINDS| == KIND_COUNT
    ensures forall k: Kind :: k in KINDS
  {
    forall k: Kind
      ensures k in KINDS
    {
      match k
      case LegacyNoObject =>
      case ExactSize =>
      case WrongSize =>
      case NoSuchUpload =>
      case UnknownAbort =>
      case CrashRetry =>
      case Cleanup =>
      case RollbackRefusal =>
    }
  }

  /** The context with a challenge issued for these witnesses. */
  function IssuedFor(c: Checks, ctx: Context, ps: Probes, rs: Readbacks): Context {
    ctx.(challenge := ctx.challenge.(
      transcriptRoot := c.sha256Hex(Print(RootInput(c, Entries(ps)))),
      authoritySnapshot := c.sha256Hex(Print(SnapshotInput(c, ctx, Anchors(rs))))))
  }

  /** Complete witnesses are acceptable under the challenge issued for them. */
  lemma CompleteIsAcceptable(c: Checks, ctx: Context, authority: Authority, ps: Probes, rs: Readbacks)
    requires Complete(ctx, authority, ps, rs)
    ensures Acceptable(c, IssuedFor(c, ctx, ps, rs), authority, ps, rs)
  {
    var issued := IssuedFor(c, ctx, ps, rs);
    assert ProducerIds(issued, ps, rs) == ProducerIds(ctx, ps, rs);
    assert SnapshotInput(c, issued, Anchors(rs)) == SnapshotInput(c, ctx, Anchors(rs));
  }

  /** Each kind has exactly one transcript and exactly one readback, and the readback follows up that transcript. */
  lemma WitnessesMatchKinds(ctx: Context, authority: Authority, ps: Probes, rs: Readbacks, k: Kind)
    returns (i: nat, j: nat)
    requires Complete(ctx, authority, ps, rs)
    ensures i < |ps| && ps[i].kind == k && forall h :: 0 <= h < |ps| && ps[h].kind == k ==> h == i
    ensures j < |rs| && rs[j].kind == k && forall h :: 0 <= h < |rs| && rs[h].kind == k ==> h == j
    ensures FollowsUp(ctx.challenge.expiresAt, ps[i].item, rs[j].item)
  {
    KindsAreEight();
    i := EveryKindOnce(ps, KINDS, k);
    j := EveryKindOnce(rs, KINDS, k);
    assert Follows(Fits(ctx.challenge.expiresAt), ps, rs[j]);
    var h :| 0 <= h < |ps| && ps[h].kind == rs[j].kind && Fits(ctx.challenge.expiresAt)(ps[h].item, rs[j].item);
    assert h == i;
  }

  /** The set sizes leave one producer to each role, with four different keys. */
  lemma OneProducerPerRole(ctx: Context, authority: Authority, ps: Probes, rs: Readbacks)
    requires Complete(ctx, authority, ps, rs) && Settled(ctx, ps, rs)
    ensures forall i :: 0 <= i < |ps| ==> ps[i].producer == ps[0].producer
    ensures forall i :: 0 <= i < |rs| ==> rs[i].producer == rs[0].producer
    ensures var d, e, p, r := KeyOf(ctx.registry, ctx.deploymentProducer), KeyOf(ctx.registry, ctx.eventProducer),
                              KeyOf(ctx.registry, ps[0].producer), KeyOf(ctx.registry, rs[0].producer);
            d != e && d != p && d != r && e != p && e != r && p != r
  {
    var d, e := ctx.deploymentProducer, ctx.eventProducer;
    var role := id => RoleOf(ctx.registry, id);
    OneSignerPerList(role, d, e, ps, rs, Some(ProbeTranscript), Some(IndependentReadback));
    var p, r := ps[0].producer, rs[0].producer;
    var ids, key := ProducerIds(ctx, ps, rs), Key(ctx.registry);
    assert role(p) == Some(ProbeTranscript) && role(r) == Some(IndependentReadback);
    ImageFull(key, ids, d, e);
    ImageFull(key, ids, d, p);
    ImageFull(key, ids, d, r);
    ImageFull(key, ids, e, p);
    ImageFull(key, ids, e, r);
    ImageFull(key, ids, p, r);
  }

  // ---- Four texts, and when they are four keys ----

  /** The key texts of the four producers: deployment, event, transcripts, readbacks. */
  function KeyTexts(ctx: Context, ps: Probes, rs: Readbacks): (r: seq<Text>)
    requires |ps| > 0 && |rs| > 0
    ensures |r| == 4
  {
    [KeyOf(ctx.registry, ctx.deploymentProducer), KeyOf(ctx.registry, ctx.eventProducer),
     KeyOf(ctx.registry, ps[0].producer), KeyOf(ctx.registry, rs[0].producer)]
  }

  ghost predicate FourKeys(texts: seq<Text>) {
    forall i, j :: 0 <= i < j < |texts| ==> DecodeBase64url(texts[i]) != DecodeBase64url(texts[j])
  }

  ghost predicate NoTwins(texts: seq<Text>) {
    forall i, j :: 0 <= i < j < |texts| ==> !Base64url.SpareTwins(texts[i], texts[j])
  }

  lemma KeyTextsDecode(ctx: Context, ps: Probes, rs: Readbacks)
    requires |ps| > 0 && |rs| > 0 && KeysHold(ctx, ps, rs)
    ensures forall i :: 0 <= i < 4 ==>
      var t := KeyTexts(ctx, ps, rs)[i];
      t != [] && Base64url.AllInAlphabet(t) && |Base64url.Decode(t)| == 32
  {
    forall i | 0 <= i < 4
      ensures KeyTexts(ctx, ps, rs)[i] != []
    {
      Base64url.DecodedCount(Base64url.Indices(KeyTexts(ctx, ps, rs)[i]));
    }
  }

  /** In every complete admission the four keys differ pairwise exactly when no two texts differ in spare bits only. */
  lemma KeysDifferExactly(ctx: Context, authority: Authority, ps: Probes, rs: Readbacks)
    requires Complete(ctx, authority, ps, rs) && Settled(ctx, ps, rs) && KeysHold(ctx, ps, rs)
    ensures FourKeys(KeyTexts(ctx, ps, rs)) <==> NoTwins(KeyTexts(ctx, ps, rs))
  {
    var ts := KeyTexts(ctx, ps, rs);
    KeyTextsDecode(ctx, ps, rs);
    forall i, j | 0 <= i < j < 4
      ensures DecodeBase64url(ts[i]) == DecodeBase64url(ts[j]) <==> Base64url.SpareTwins(ts[i], ts[j])
    {
      Base64url.SameKeyExactly(ts[i], ts[j]);
    }
  }

  lemma TextsDiffer(ctx: Context, authority: Authority, ps: Probes, rs: Readbacks, i: nat, j: nat)
    requires Complete(ctx, authority, ps, rs) && Settled(ctx, ps, rs) && i < j < 4
    ensures KeyTexts(ctx, ps, rs)[i] != KeyTexts(ctx, ps, rs)[j]
  {
    OneProducerPerRole(ctx, authority, ps, rs);
  }

  /** With a registry of strict texts, the four set-size checks do give four different keys. */
  lemma StrictKeysDiffer(ctx: Context, authority: Authority, ps: Probes, rs: Readbacks)
    requires Complete(ctx, authority, ps, rs) && Settled(ctx, ps, rs) && KeysHold(ctx, ps, rs)
    requires forall i :: 0 <= i < 4 ==> Base64url.StrictBase64url(KeyTexts(ctx, ps, rs)[i]).Some?
    ensures FourKeys(KeyTexts(ctx, ps, rs))
  {
    var ts := KeyTexts(ctx, ps, rs);
    KeyTextsDecode(ctx, ps, rs);
    forall i, j | 0 <= i < j < 4
      ensures DecodeBase64url(ts[i]) != DecodeBase64url(ts[j])
    {
      TextsDiffer(ctx, authority, ps, rs, i, j);
      Base64url.StrictIsInjective(ts[i], ts[j]);
    }
  }

  // ---- Probe ids, and the order of the witnesses ----

  /** The authority answers each probe id the same way every time. */
  ghost predicate Consistent(authority: Authority) { forall m, n, id :: authority(m, id) == authority(n, id) }

  lemma ReadbackIdsDiffer(ctx: Context, authority: Authority, ps: Probes, rs: Readbacks, i: nat, j: nat)
    requires Complete(ctx, authority, ps, rs) && Settled(ctx, ps, rs) && Consistent(authority)
    requires i < j < |rs|
    ensures rs[i].item.id != rs[j].item.id
  {
    assert Asked(authority)(i, rs[i].item) && Asked(authority)(j, rs[j].item);
    assert authority(i, rs[i].item.id) == authority(j, rs[i].item.id);
    assert rs[i].kind != rs[j].kind;
  }

  /** With a consistent authority all probe ids are different, although they are never compared. */
  lemma ProbeIdsDiffer(ctx: Context, authority: Authority, ps: Probes, rs: Readbacks, i: nat, j: nat)
    requires Complete(ctx, authority, ps, rs) && Settled(ctx, ps, rs) && Consistent(authority)
    requires i < j < |ps|
    ensures ps[i].item.id != ps[j].item.id
  {
    var i', g := WitnessesMatchKinds(ctx, authority, ps, rs, ps[i].kind);
    var j', h := WitnessesMatchKinds(ctx, authority, ps, rs, ps[j].kind);
    assert i' == i && j' == j;
    assert ps[i].kind != ps[j].kind;
    if g < h { ReadbackIdsDiffer(ctx, authority, ps, rs, g, h); }
    if h < g { ReadbackIdsDiffer(ctx, authority, ps, rs, h, g); }
  }

  lemma EntriesPermute(ps: Probes, qs: Probes)
    requires multiset(ps) == multiset(qs) && KindsDiffer(ps)
    ensures SameEntries(Entries(ps), Entries(qs)) && KeysDetermine(Entries(ps))
  {
    DifferPermutes(ps, qs);
    SameLength(ps, qs);
    var a, b := Entries(ps), Entries(qs);
    forall i | 0 <= i < |a|
      ensures a[i] in b
    {
      var j := IndexIn(ps, qs, i);
      assert b[j] == a[i];
    }
    SubsetIsPermutation(a, b);
  }

  lemma AnchorsPermute(ctx: Context, authority: Authority, ps: Probes, rs: Readbacks, ts: Readbacks)
    requires Complete(ctx, authority, ps, rs) && Settled(ctx, ps, rs) && Consistent(authority)
    requires multiset(rs) == multiset(ts)
    ensures SameEntries(Anchors(rs), Anchors(ts)) && KeysDetermine(Anchors(rs))
  {
    SameLength(rs, ts);
    DifferPermutes(rs, ts);
    var a, b := Anchors(rs), Anchors(ts);
    forall i, j | 0 <= i < j < |rs|
      ensures a[i].0 != a[j].0
    {
      ReadbackIdsDiffer(ctx, authority, ps, rs, i, j);
    }
    forall i, j | 0 <= i < j < |ts|
      ensures b[i].0 != b[j].0
    {
      var g := IndexIn(ts, rs, i);
      var h := IndexIn(ts, rs, j);
      assert ts[i].kind != ts[j].kind;
      if g < h { ReadbackIdsDiffer(ctx, authority, ps, rs, g, h); }
      if h < g { ReadbackIdsDiffer(ctx, authority, ps, rs, h, g); }
    }
    forall i | 0 <= i < |a|
      ensures a[i] in b
    {
      var j := IndexIn(rs, ts, i);
      assert b[j] == a[i];
    }
    SubsetIsPermutation(a, b);
  }

  lemma CompletePermutes(ctx: Context, authority: Authority, ps: Probes, rs: Readbacks, qs: Probes, ts: Readbacks)
    requires Complete(ctx, authority, ps, rs) && Consistent(authority)
    requires multiset(ps) == multiset(qs) && multiset(rs) == multiset(ts)
    ensures Complete(ctx, authority, qs, ts)
  {
    SameLength(ps, qs);
    SameLength(rs, ts);
    DifferPermutes(ps, qs);
    DifferPermutes(rs, ts);
    SignersPermute(ps, qs);
    SignersPermute(rs, ts);
    FollowPermutes(Fits(ctx.challenge.expiresAt), Asked(authority), ps, rs, qs, ts);
  }

  /** Listing the same witnesses in another order changes neither digest input, so it is accepted alike. */
  lemma OrderDoesNotMatter(
      c: Checks, ctx: Context, authority: Authority, ps: Probes, rs: Readbacks, qs: Probes, ts: Readbacks)
    requires Complete(ctx, authority, ps, rs) && Settled(ctx, ps, rs) && Consistent(authority)
    requires TotalOrder(c.kindOrder) && TotalOrder(c.idOrder)
    requires multiset(ps) == multiset(qs) && multiset(rs) == multiset(ts)
    ensures RootInput(c, Entries(ps)) == RootInput(c, Entries(qs))
    ensures SnapshotInput(c, ctx, Anchors(rs)) == SnapshotInput(c, ctx, Anchors(ts))
    ensures Acceptable(c, ctx, authority, ps, rs) <==> Acceptable(c, ctx, authority, qs, ts)
  {
    CompletePermutes(ctx, authority, ps, rs, qs, ts);
    EntriesPermute(ps, qs);
    AnchorsPermute(ctx, authority, ps, rs, ts);
    SortIgnoresOrder(Entries(ps), Entries(qs), c.kindOrder);
    SortIgnoresOrder(Anchors(rs), Anchors(ts), c.idOrder);
  }
}
