/** What the digests of an admission cover: the transcript root, the authority snapshot and the evidence. */
module AdmissionDigests {
  import opened JsText
  import opened Sorting
  import opened CanonicalJson
  import opened CanonicalJsonProofs
  import opened Admission
  import opened WitnessLoops
  import opened AdmissionWitnesses
  import opened AdmissionEvidence

  // ---- Objects and arrays field by field ----

  lemma KindNamesDiffer(a: Kind, b: Kind)
    ensures KindName(a) == KindName(b) <==> a == b
  {
    KindNameStart(a);
    KindNameStart(b);
  }

  lemma KindNameStart(k: Kind)
    ensures |KindName(k)| == match k
                             case LegacyNoObject => 16
                             case ExactSize => 10
                             case WrongSize => 10
                             case NoSuchUpload => 14
                             case UnknownAbort => 13
                             case CrashRetry => 11
                             case Cleanup => 7
                             case RollbackRefusal => 16
    ensures |KindName(k)| == 16 ==> KindName(k)[0] == if k == LegacyNoObject then 108 else 114
    ensures |KindName(k)| == 10 ==> KindName(k)[0] == if k == ExactSize then 101 else 119
  {
    assert "legacy-no-object"[0] == 'l' && "rollback-refusal"[0] == 'r';
    assert "exact-size"[0] == 'e' && "wrong-size"[0] == 'w';
  }

  /** Objects of strings under the same distinct keys have the same value only when they are the same. */
  lemma SameStrings(a: seq<(Text, Json)>, b: seq<(Text, Json)>)
    requires |a| == |b| && DistinctKeys(a)
    requires forall i :: 0 <= i < |a| ==> a[i].0 == b[i].0 && a[i].1.Str? && b[i].1.Str?
    ensures SameValue(Obj(a), Obj(b)) <==> a == b
    ensures Proper(Obj(a))
  {
    SameFields(a, b);
    forall i | 0 <= i < |a|
      ensures SameValue(a[i].1, b[i].1) <==> a[i] == b[i]
    {
      SameScalars(a[i].1, b[i].1);
    }
  }

  lemma SameItems<E>(item: E -> Json, es: seq<E>, fs: seq<E>)
    ensures SameValue(Arr(Items(item, es)), Arr(Items(item, fs))) <==>
            |es| == |fs| && forall i :: 0 <= i < |es| ==> SameValue(item(es[i]), item(fs[i]))
  {
    var a, b := Items(item, es), Items(item, fs);
    var v, w := Arr(a), Arr(b);
    if SameValue(v, w) {
      forall i | 0 <= i < |es|
        ensures SameValue(item(es[i]), item(fs[i]))
      {
        assert SameValue(v.items[i], w.items[i]);
      }
    }
  }

  lemma ProperItems<E>(item: E -> Json, es: seq<E>)
    requires forall i :: 0 <= i < |es| ==> Proper(item(es[i]))
    ensures Proper(Arr(Items(item, es)))
  {
  }

  lemma RootItemNames()
    ensures Ascii("kind")[0] == 107 && Ascii("probe_id")[0] == 112 && Ascii("transcript_bytes_sha256")[0] == 116
  {
    assert "kind"[0] == 'k' && "probe_id"[0] == 'p' && "transcript_bytes_sha256"[0] == 't';
  }

  lemma SameRootItem(e: (Kind, Probe), f: (Kind, Probe))
    ensures Proper(RootItem(e))
    ensures SameValue(RootItem(e), RootItem(f)) <==>
            e.0 == f.0 && e.1.id == f.1.id && e.1.digest == f.1.digest
  {
    RootItemNames();
    var a, b := RootItem(e).members, RootItem(f).members;
    SameStrings(a, b);
    KindNamesDiffer(e.0, f.0);
    assert a == b <==> a[0] == b[0] && a[1] == b[1] && a[2] == b[2];
  }

  lemma AnchorItemNames()
    ensures Ascii("d1_readback_base64url")[0] == Ascii("d1_readback_sha256")[0] == 100
    ensures Ascii("r2_readback_base64url")[0] == Ascii("r2_readback_sha256")[0] == 114
    ensures Ascii("quota_readback_base64url")[0] == Ascii("quota_readback_sha256")[0] == 113
  {
    assert "d1_readback_base64url"[0] == "d1_readback_sha256"[0] == 'd';
    assert "r2_readback_base64url"[0] == "r2_readback_sha256"[0] == 'r';
    assert "quota_readback_base64url"[0] == "quota_readback_sha256"[0] == 'q';
  }

  lemma AnchorKeysDiffer(e: (ProbeId, Anchor))
    ensures DistinctKeys(AnchorItem(e).members)
  {
    RootItemNames();
    AnchorItemNames();
  }

  lemma SameAnchorItem(e: (ProbeId, Anchor), f: (ProbeId, Anchor))
    ensures Proper(AnchorItem(e))
    ensures SameValue(AnchorItem(e), AnchorItem(f)) <==> e.1 == f.1
  {
    var a, b := AnchorItem(e).members, AnchorItem(f).members;
    AnchorKeysDiffer(e);
    SameStrings(a, b);
    KindNamesDiffer(e.1.kind, f.1.kind);
    if a == b {
      assert a[0] == b[0] && a[1] == b[1] && a[2] == b[2];
      assert a[3] == b[3] && a[4] == b[4] && a[5] == b[5] && a[6] == b[6] && a[7] == b[7] && a[8] == b[8];
    }
  }

  // ---- The transcript root ----

  /** What the root says of the transcripts: kind, probe id and digest of each. */
  ghost function Triples(ps: Probes): set<(Kind, Text, Text)> {
    set i | 0 <= i < |ps| :: (ps[i].kind, ps[i].item.id, ps[i].item.digest)
  }

  function IdAndDigest(p: Probe): (Text, Text) { (p.id, p.digest) }

  lemma TripleKept(ps: Probes, k: Kind, id: Text, digest: Text)
    ensures (k, id, digest) in Triples(ps) <==> (k, (id, digest)) in Members(Kept(IdAndDigest, Entries(ps)))
  {
    var kept := Kept(IdAndDigest, Entries(ps));
    if (k, id, digest) in Triples(ps) {
      var i :| 0 <= i < |ps| && (k, id, digest) == (ps[i].kind, ps[i].item.id, ps[i].item.digest);
      assert kept[i] == (k, (id, digest));
    }
    if (k, (id, digest)) in Members(kept) {
      var i :| 0 <= i < |kept| && kept[i] == (k, (id, digest));
      assert (ps[i].kind, ps[i].item.id, ps[i].item.digest) == (k, id, digest);
    }
  }

  lemma SameTriples(ps: Probes, qs: Probes)
    ensures Triples(ps) == Triples(qs) <==>
            Members(Kept(IdAndDigest, Entries(ps))) == Members(Kept(IdAndDigest, Entries(qs)))
  {
    var a, b := Members(Kept(IdAndDigest, Entries(ps))), Members(Kept(IdAndDigest, Entries(qs)));
    if Triples(ps) == Triples(qs) {
      forall e: (Kind, (Text, Text))
        ensures e in a <==> e in b
      {
        TripleKept(ps, e.0, e.1.0, e.1.1);
        TripleKept(qs, e.0, e.1.0, e.1.1);
      }
    }
    if a == b {
      forall t: (Kind, Text, Text)
        ensures t in Triples(ps) <==> t in Triples(qs)
      {
        TripleKept(ps, t.0, t.1, t.2);
        TripleKept(qs, t.0, t.1, t.2);
      }
    }
  }

  lemma SameRootItems(a: seq<(Kind, Probe)>, b: seq<(Kind, Probe)>)
    ensures Print(Arr(Items(RootItem, a))) == Print(Arr(Items(RootItem, b))) <==>
            Kept(IdAndDigest, a) == Kept(IdAndDigest, b)
  {
    forall i | 0 <= i < |a| ensures Proper(RootItem(a[i])) { SameRootItem(a[i], a[i]); }
    forall i | 0 <= i < |b| ensures Proper(RootItem(b[i])) { SameRootItem(b[i], b[i]); }
    ProperItems(RootItem, a);
    ProperItems(RootItem, b);
    PrintDecidesValue(Arr(Items(RootItem, a)), Arr(Items(RootItem, b)));
    SameItems(RootItem, a, b);
    forall i | 0 <= i < |a| && |a| == |b|
      ensures SameValue(RootItem(a[i]), RootItem(b[i])) <==> Kept(IdAndDigest, a)[i] == Kept(IdAndDigest, b)[i]
    {
      SameRootItem(a[i], b[i]);
    }
  }

  lemma EntriesDistinct(ps: Probes)
    requires KindsDiffer(ps)
    ensures DistinctKeys(Entries(ps))
  {
  }

  /** One text behind two roots means the same transcripts. */
  lemma RootTellsTranscripts(c: Checks, ps: Probes, qs: Probes)
    requires Print(RootInput(c, Entries(ps))) == Print(RootInput(c, Entries(qs)))
    ensures Triples(ps) == Triples(qs)
  {
    SameRootItems(SortByKey(Entries(ps), c.kindOrder), SortByKey(Entries(qs), c.kindOrder));
    SortedKeepMembers(IdAndDigest, Entries(ps), c.kindOrder);
    SortedKeepMembers(IdAndDigest, Entries(qs), c.kindOrder);
    SameTriples(ps, qs);
  }

  /** For different kinds the text behind the root is the same exactly when kinds, probe ids and digests are. */
  lemma RootCovers(c: Checks, ps: Probes, qs: Probes)
    requires TotalOrder(c.kindOrder) && KindsDiffer(ps) && KindsDiffer(qs)
    ensures Print(RootInput(c, Entries(ps))) == Print(RootInput(c, Entries(qs))) <==> Triples(ps) == Triples(qs)
  {
    EntriesDistinct(ps);
    EntriesDistinct(qs);
    SameRootItems(SortByKey(Entries(ps), c.kindOrder), SortByKey(Entries(qs), c.kindOrder));
    SortedKeepSame(IdAndDigest, Entries(ps), Entries(qs), c.kindOrder);
    SameTriples(ps, qs);
  }

  // ---- The authority snapshot ----

  /** What the snapshot says of the readbacks: probe id, kind, digest and the six resource fields of each. */
  ghost function Readings(rs: Readbacks): set<(Text, Kind, Text, Parts)> {
    set i | 0 <= i < |rs| :: (rs[i].item.id, rs[i].item.kind, rs[i].item.digest, rs[i].item.parts)
  }

  ghost predicate IdsDiffer(rs: Readbacks) {
    forall i, j :: 0 <= i < j < |rs| ==> rs[i].item.id != rs[j].item.id
  }

  function Whole(a: Anchor): Anchor { a }

  lemma ReadingKept(rs: Readbacks, a: Anchor)
    ensures (a.id, a.kind, a.digest, a.parts) in Readings(rs) <==>
            IsProbeId(a.id) && (a.id, a) in Members(Kept(Whole, Anchors(rs)))
  {
    var kept := Kept(Whole, Anchors(rs));
    if (a.id, a.kind, a.digest, a.parts) in Readings(rs) {
      var i :| && 0 <= i < |rs|
               && (a.id, a.kind, a.digest, a.parts)
                  == (rs[i].item.id, rs[i].item.kind, rs[i].item.digest, rs[i].item.parts);
      assert kept[i] == (a.id, a);
    }
    if IsProbeId(a.id) && (a.id, a) in Members(kept) {
      var i :| 0 <= i < |kept| && kept[i] == (a.id, a);
      assert (rs[i].item.id, rs[i].item.kind, rs[i].item.digest, rs[i].item.parts)
             == (a.id, a.kind, a.digest, a.parts);
    }
  }

  lemma KeptIsKeyed(rs: Readbacks, e: (ProbeId, Anchor))
    requires e in Members(Kept(Whole, Anchors(rs)))
    ensures e.0 == e.1.id
  {
  }

  lemma SameReadings(rs: Readbacks, ts: Readbacks)
    ensures Readings(rs) == Readings(ts) <==>
            Members(Kept(Whole, Anchors(rs))) == Members(Kept(Whole, Anchors(ts)))
  {
    var a, b := Members(Kept(Whole, Anchors(rs))), Members(Kept(Whole, Anchors(ts)));
    if Readings(rs) == Readings(ts) {
      forall e: (ProbeId, Anchor)
        ensures e in a <==> e in b
      {
        ReadingKept(rs, e.1);
        ReadingKept(ts, e.1);
        if e in a { KeptIsKeyed(rs, e); }
        if e in b { KeptIsKeyed(ts, e); }
      }
    }
    if a == b {
      forall t: (Text, Kind, Text, Parts)
        ensures t in Readings(rs) <==> t in Readings(ts)
      {
        ReadingKept(rs, Anchor(t.0, t.1, t.2, t.3));
        ReadingKept(ts, Anchor(t.0, t.1, t.2, t.3));
      }
    }
  }

  lemma SameAnchorItems(a: seq<(ProbeId, Anchor)>, b: seq<(ProbeId, Anchor)>)
    requires forall i :: 0 <= i < |a| ==> a[i].0 == a[i].1.id
    requires forall i :: 0 <= i < |b| ==> b[i].0 == b[i].1.id
    ensures Proper(Arr(Items(AnchorItem, a))) && Proper(Arr(Items(AnchorItem, b)))
    ensures SameValue(Arr(Items(AnchorItem, a)), Arr(Items(AnchorItem, b))) <==> Kept(Whole, a) == Kept(Whole, b)
  {
    forall i | 0 <= i < |a| ensures Proper(AnchorItem(a[i])) { SameAnchorItem(a[i], a[i]); }
    forall i | 0 <= i < |b| ensures Proper(AnchorItem(b[i])) { SameAnchorItem(b[i], b[i]); }
    ProperItems(AnchorItem, a);
    ProperItems(AnchorItem, b);
    SameItems(AnchorItem, a, b);
    forall i | 0 <= i < |a| && |a| == |b|
      ensures SameValue(AnchorItem(a[i]), AnchorItem(b[i])) <==> Kept(Whole, a)[i] == Kept(Whole, b)[i]
    {
      SameAnchorItem(a[i], b[i]);
    }
  }

  lemma SortedKeyed(rs: Readbacks, leq: (ProbeId, ProbeId) -> bool)
    ensures forall i :: 0 <= i < |SortByKey(Anchors(rs), leq)| ==>
      var e := SortByKey(Anchors(rs), leq)[i]; e.0 == e.1.id
  {
    var sorted := SortByKey(Anchors(rs), leq);
    SortPermutes(Anchors(rs), leq);
    forall i | 0 <= i < |sorted|
      ensures sorted[i].0 == sorted[i].1.id
    {
      SameMembers(sorted, Anchors(rs), sorted[i]);
    }
  }

  lemma ThreeFields(a: seq<(Text, Json)>, b: seq<(Text, Json)>)
    requires |a| == |b| == 3 && DistinctKeys(a) && forall i :: 0 <= i < 3 ==> a[i].0 == b[i].0
    requires forall i :: 0 <= i < 3 ==> Proper(a[i].1) && Proper(b[i].1)
    ensures Print(Obj(a)) == Print(Obj(b)) <==>
            SameValue(a[0].1, b[0].1) && SameValue(a[1].1, b[1].1) && SameValue(a[2].1, b[2].1)
  {
    SameFields(a, b);
    assert DistinctKeys(b);
    PrintDecidesValue(Obj(a), Obj(b));
  }

  ghost predicate ProperContext(ctx: Context) { Proper(ctx.active) && Proper(ctx.event) }

  lemma SameSnapshot(c: Checks, ctx: Context, dtx: Context, rs: Readbacks, ts: Readbacks)
    requires ProperContext(ctx) && ProperContext(dtx)
    ensures Print(SnapshotInput(c, ctx, Anchors(rs))) == Print(SnapshotInput(c, dtx, Anchors(ts))) <==>
            && SameValue(ctx.active, dtx.active) && SameValue(ctx.event, dtx.event)
            && Kept(Whole, SortByKey(Anchors(rs), c.idOrder)) == Kept(Whole, SortByKey(Anchors(ts), c.idOrder))
  {
    SortedKeyed(rs, c.idOrder);
    SortedKeyed(ts, c.idOrder);
    SameAnchorItems(SortByKey(Anchors(rs), c.idOrder), SortByKey(Anchors(ts), c.idOrder));
    var a, b := SnapshotInput(c, ctx, Anchors(rs)).members, SnapshotInput(c, dtx, Anchors(ts)).members;
    assert "active"[0] == 'a' && "event"[0] == 'e' && "readbacks"[0] == 'r';
    assert Ascii("active")[0] == 97 && Ascii("event")[0] == 101 && Ascii("readbacks")[0] == 114;
    ThreeFields(a, b);
  }

  /** One text behind two snapshots means the same active deployment, event and readbacks. */
  lemma SnapshotTellsReadbacks(c: Checks, ctx: Context, dtx: Context, rs: Readbacks, ts: Readbacks)
    requires ProperContext(ctx) && ProperContext(dtx)
    requires Print(SnapshotInput(c, ctx, Anchors(rs))) == Print(SnapshotInput(c, dtx, Anchors(ts)))
    ensures SameValue(ctx.active, dtx.active) && SameValue(ctx.event, dtx.event) && Readings(rs) == Readings(ts)
  {
    SameSnapshot(c, ctx, dtx, rs, ts);
    SortedKeepMembers(Whole, Anchors(rs), c.idOrder);
    SortedKeepMembers(Whole, Anchors(ts), c.idOrder);
    SameReadings(rs, ts);
  }

  lemma AnchorsDistinct(rs: Readbacks)
    requires IdsDiffer(rs)
    ensures DistinctKeys(Anchors(rs))
  {
  }

  /** For different ids the text behind the snapshot is the same exactly when deployment, event and readings are. */
  lemma SnapshotCovers(c: Checks, ctx: Context, dtx: Context, rs: Readbacks, ts: Readbacks)
    requires TotalOrder(c.idOrder) && IdsDiffer(rs) && IdsDiffer(ts) && ProperContext(ctx) && ProperContext(dtx)
    ensures Print(SnapshotInput(c, ctx, Anchors(rs))) == Print(SnapshotInput(c, dtx, Anchors(ts))) <==>
            SameValue(ctx.active, dtx.active) && SameValue(ctx.event, dtx.event) && Readings(rs) == Readings(ts)
  {
    SameSnapshot(c, ctx, dtx, rs, ts);
    AnchorsDistinct(rs);
    AnchorsDistinct(ts);
    SortedKeepSame(Whole, Anchors(rs), Anchors(ts), c.idOrder);
    SameReadings(rs, ts);
  }

  // ---- The evidence ----

  ghost predicate SameStatement(s: Statement, t: Statement) {
    && s.format == t.format && s.producerId == t.producerId && s.keyEpoch == t.keyEpoch
    && s.challengeId == t.challengeId && s.sequence == t.sequence && s.algorithm == t.algorithm
    && SameValue(s.payload, t.payload) && s.signature == t.signature
  }

  ghost predicate SameStatements(ss: seq<Statement>, ts: seq<Statement>) {
    |ss| == |ts| && forall i :: 0 <= i < |ss| ==> SameStatement(ss[i], ts[i])
  }

  ghost predicate SameEvidence(e: Evidence, f: Evidence) {
    && e.challengeId == f.challengeId && e.sequence == f.sequence
    && SameStatement(e.deployment, f.deployment) && SameStatement(e.event, f.event)
    && SameStatements(e.probes, f.probes) && SameStatements(e.readbacks, f.readbacks)
  }

  /** Payloads without repeated keys. */
  ghost predicate ProperEvidence(e: Evidence) {
    && Proper(e.deployment.payload) && Proper(e.event.payload)
    && (forall i :: 0 <= i < |e.probes| ==> Proper(e.probes[i].payload))
    && (forall i :: 0 <= i < |e.readbacks| ==> Proper(e.readbacks[i].payload))
  }

  lemma StatementNames(s: Statement)
    ensures DistinctKeys(StatementJson(s).members)
  {
    FieldNames();
    assert "format"[0] == 'f' && "algorithm"[0] == 'a' && "signature_base64url"[0] == 's';
    assert Ascii("format")[0] == 102 && Ascii("algorithm")[0] == 97 && Ascii("signature_base64url")[0] == 115;
  }

  lemma EightFields(a: seq<(Text, Json)>, b: seq<(Text, Json)>)
    requires |a| == |b| == 8 && DistinctKeys(a) && forall i :: 0 <= i < 8 ==> a[i].0 == b[i].0
    ensures SameValue(Obj(a), Obj(b)) <==>
            && SameValue(a[0].1, b[0].1) && SameValue(a[1].1, b[1].1) && SameValue(a[2].1, b[2].1)
            && SameValue(a[3].1, b[3].1) && SameValue(a[4].1, b[4].1) && SameValue(a[5].1, b[5].1)
            && SameValue(a[6].1, b[6].1) && SameValue(a[7].1, b[7].1)
  {
    SameFields(a, b);
  }

  lemma StatementDecided(s: Statement, t: Statement)
    ensures SameValue(StatementJson(s), StatementJson(t)) <==> SameStatement(s, t)
  {
    StatementNames(s);
    var a, b := StatementJson(s).members, StatementJson(t).members;
    EightFields(a, b);
    SameScalars(a[0].1, b[0].1);
    SameScalars(a[1].1, b[1].1);
    SameScalars(a[2].1, b[2].1);
    SameScalars(a[3].1, b[3].1);
    SameScalars(a[4].1, b[4].1);
    SameScalars(a[5].1, b[5].1);
    SameScalars(a[7].1, b[7].1);
  }

  lemma StatementProper(s: Statement)
    requires Proper(s.payload)
    ensures Proper(StatementJson(s))
  {
    StatementNames(s);
  }

  lemma StatementsDecided(ss: seq<Statement>, ts: seq<Statement>)
    ensures SameValue(Arr(Items(StatementJson, ss)), Arr(Items(StatementJson, ts))) <==> SameStatements(ss, ts)
  {
    SameItems(StatementJson, ss, ts);
    forall i | 0 <= i < |ss| && |ss| == |ts|
      ensures SameValue(StatementJson(ss[i]), StatementJson(ts[i])) <==> SameStatement(ss[i], ts[i])
    {
      StatementDecided(ss[i], ts[i]);
    }
  }

  lemma StatementsProper(ss: seq<Statement>)
    requires forall i :: 0 <= i < |ss| ==> Proper(ss[i].payload)
    ensures Proper(Arr(Items(StatementJson, ss)))
  {
    forall i | 0 <= i < |ss| ensures Proper(StatementJson(ss[i])) { StatementProper(ss[i]); }
    ProperItems(StatementJson, ss);
  }

  lemma EvidenceNames(e: Evidence)
    ensures DistinctKeys(EvidenceJson(e).members)
  {
    FieldNames();
    assert "format"[0] == 'f' && "deployment"[0] == 'd' && "provider_event"[0] == "probes"[0] == 'p';
    assert "readbacks"[0] == 'r';
    assert Ascii("format")[0] == 102 && Ascii("deployment")[0] == 100 && Ascii("readbacks")[0] == 114;
    assert Ascii("provider_event")[0] == 112 && Ascii("probes")[0] == 112;
  }

  lemma SevenFields(a: seq<(Text, Json)>, b: seq<(Text, Json)>)
    requires |a| == |b| == 7 && DistinctKeys(a) && forall i :: 0 <= i < 7 ==> a[i].0 == b[i].0
    ensures SameValue(Obj(a), Obj(b)) <==>
            && SameValue(a[0].1, b[0].1) && SameValue(a[1].1, b[1].1) && SameValue(a[2].1, b[2].1)
            && SameValue(a[3].1, b[3].1) && SameValue(a[4].1, b[4].1) && SameValue(a[5].1, b[5].1)
            && SameValue(a[6].1, b[6].1)
  {
    SameFields(a, b);
  }

  lemma EvidenceDecided(e: Evidence, f: Evidence)
    ensures SameValue(EvidenceJson(e), EvidenceJson(f)) <==> SameEvidence(e, f)
  {
    EvidenceNames(e);
    var a, b := EvidenceJson(e).members, EvidenceJson(f).members;
    SevenFields(a, b);
    SameScalars(a[0].1, b[0].1);
    SameScalars(a[1].1, b[1].1);
    SameScalars(a[2].1, b[2].1);
    StatementDecided(e.deployment, f.deployment);
    StatementDecided(e.event, f.event);
    StatementsDecided(e.probes, f.probes);
    StatementsDecided(e.readbacks, f.readbacks);
  }

  lemma EvidenceProper(e: Evidence)
    requires ProperEvidence(e)
    ensures Proper(EvidenceJson(e))
  {
    EvidenceNames(e);
    StatementProper(e.deployment);
    StatementProper(e.event);
    StatementsProper(e.probes);
    StatementsProper(e.readbacks);
  }

  /** The text behind the digest of evidence decides every field of every statement. */
  lemma EvidenceCovers(e: Evidence, f: Evidence)
    requires ProperEvidence(e) && ProperEvidence(f)
    ensures Print(EvidenceJson(e)) == Print(EvidenceJson(f)) <==> SameEvidence(e, f)
  {
    EvidenceProper(e);
    EvidenceProper(f);
    PrintDecidesValue(EvidenceJson(e), EvidenceJson(f));
    EvidenceDecided(e, f);
  }

  // ---- Each field under its name ----

  lemma RootItemReads(e: (Kind, Probe))
    ensures Has(RootItem(e), "kind", Str(KindName(e.0))) && Has(RootItem(e), "probe_id", Str(e.1.id))
    ensures Has(RootItem(e), "transcript_bytes_sha256", Str(e.1.digest))
  {
    var ms := RootItem(e).members;
    assert ms[0] in ms && ms[1] in ms && ms[2] in ms;
  }

  lemma AnchorItemReads(e: (ProbeId, Anchor))
    ensures var v, a := AnchorItem(e), e.1;
            && Has(v, "probe_id", Str(a.id)) && Has(v, "kind", Str(KindName(a.kind)))
            && Has(v, "transcript_bytes_sha256", Str(a.digest))
            && Has(v, "d1_readback_base64url", Str(a.parts.d1)) && Has(v, "d1_readback_sha256", Str(a.parts.d1Digest))
            && Has(v, "r2_readback_base64url", Str(a.parts.r2)) && Has(v, "r2_readback_sha256", Str(a.parts.r2Digest))
            && Has(v, "quota_readback_base64url", Str(a.parts.quota))
            && Has(v, "quota_readback_sha256", Str(a.parts.quotaDigest))
  {
    var ms := AnchorItem(e).members;
    assert ms[0] in ms && ms[1] in ms && ms[2] in ms && ms[3] in ms && ms[4] in ms;
    assert ms[5] in ms && ms[6] in ms && ms[7] in ms && ms[8] in ms;
  }

  /** Under the total order of the kinds the root lists the transcripts, all of them once, in that order. */
  lemma RootListsInOrder(c: Checks, ps: Probes)
    requires TotalOrder(c.kindOrder)
    ensures exists es: seq<(Kind, Probe)> ::
              && RootInput(c, Entries(ps)) == Arr(Items(RootItem, es)) && multiset(es) == multiset(Entries(ps))
              && forall i, j :: 0 <= i < j < |es| ==> c.kindOrder(es[i].0, es[j].0)
  {
    SortSorts(Entries(ps), c.kindOrder);
    SortPermutes(Entries(ps), c.kindOrder);
  }

  lemma SnapshotReads(c: Checks, ctx: Context, rs: Readbacks)
    requires TotalOrder(c.idOrder)
    ensures var v := SnapshotInput(c, ctx, Anchors(rs));
            && Has(v, "active", ctx.active) && Has(v, "event", ctx.event)
            && exists es: seq<(ProbeId, Anchor)> ::
                 && Has(v, "readbacks", Arr(Items(AnchorItem, es))) && multiset(es) == multiset(Anchors(rs))
                 && forall i, j :: 0 <= i < j < |es| ==> c.idOrder(es[i].0, es[j].0)
  {
    var ms := SnapshotInput(c, ctx, Anchors(rs)).members;
    assert ms[0] in ms && ms[1] in ms && ms[2] in ms;
    SortPermutes(Anchors(rs), c.idOrder);
    SortSorts(Anchors(rs), c.idOrder);
  }

  lemma StatementReads(s: Statement)
    ensures var v := StatementJson(s);
            && Has(v, "format", Str(s.format)) && Has(v, "producer_id", Str(s.producerId))
            && Has(v, "key_epoch", Num(s.keyEpoch)) && Has(v, "challenge_id", Str(s.challengeId))
            && Has(v, "sequence", Num(s.sequence)) && Has(v, "algorithm", Str(s.algorithm))
            && Has(v, "payload", s.payload) && Has(v, "signature_base64url", Str(s.signature))
  {
    var ms := StatementJson(s).members;
    assert ms[0] in ms && ms[1] in ms && ms[2] in ms && ms[3] in ms;
    assert ms[4] in ms && ms[5] in ms && ms[6] in ms && ms[7] in ms;
  }

  lemma EvidenceReads(e: Evidence)
    ensures var v := EvidenceJson(e);
            && Has(v, "format", Str(Ascii("osl.cipher-store.d2-production-admission.v3")))
            && Has(v, "challenge_id", Str(e.challengeId)) && Has(v, "sequence", Num(e.sequence))
            && Has(v, "deployment", StatementJson(e.deployment)) && Has(v, "provider_event", StatementJson(e.event))
            && Has(v, "probes", Arr(Items(StatementJson, e.probes)))
            && Has(v, "readbacks", Arr(Items(StatementJson, e.readbacks)))
  {
    var ms := EvidenceJson(e).members;
    assert ms[0] in ms && ms[1] in ms && ms[2] in ms && ms[3] in ms && ms[4] in ms && ms[5] in ms && ms[6] in ms;
  }
}
