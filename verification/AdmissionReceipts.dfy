/** What a receipt guarantees, and what two receipts with one digest share, in terms of the statements themselves. */
module AdmissionReceipts {
  import opened Wrappers
  import opened JsText
  import Base64url
  import opened Sorting
  import opened CanonicalJson
  import opened CanonicalJsonProofs
  import opened RawJson
  import opened Admission
  import opened WitnessLoops
  import opened AdmissionWitnesses
  import opened AdmissionEvidence
  import P = AdmissionProtocol
  import opened AdmissionDigests

  // ---- What passing comes to ----

  /** A base64url text of exactly `n` bytes. */
  predicate Spells(t: Text, n: nat) { t != [] && Base64url.AllInAlphabet(t) && |Base64url.Decode(t)| == n }

  /** Signed for this challenge, within its validity, by a producer registered for the role and account. */
  predicate SignedFor(c: Checks, v: View, ch: Challenge, now: SafeInt, role: Role, s: Statement) {
    && s.format == Ascii("osl.cipher-store.d2-production-admission-statement.v1") && s.algorithm == Ascii("Ed25519")
    && s.challengeId == ch.id && s.sequence == ch.sequence
    && s.producerId in v.registry
    && var p := v.registry[s.producerId];
       && p.role == role && p.account == v.account && IsSha256(p.account) && 0 < p.keyEpoch == s.keyEpoch
       && 0 < p.validFrom <= now <= p.validThrough && (p.revokedAt.None? || now < p.revokedAt.value)
       && Spells(p.publicKey, 32) && Spells(s.signature, 64)
       && c.verify(Base64url.Decode(p.publicKey), SignedText(s), Base64url.Decode(s.signature))
  }

  ghost predicate Transcripts(c: Checks, v: View, ch: Challenge, now: SafeInt, ss: seq<Statement>, ps: seq<Probe>) {
    && |ss| == |ps|
    && (forall i :: 0 <= i < |ss| ==> SignedFor(c, v, ch, now, ProbeTranscript, ss[i]))
    && (forall i :: 0 <= i < |ss| ==> c.readProbe(ss[i].payload) == Some(ps[i]))
    && (forall i :: 0 <= i < |ps| ==>
          0 < ps[i].observedAt && v.eventObservedAt <= ps[i].observedAt <= ch.expiresAt)
  }

  ghost predicate ReadTwice(c: Checks, v: View, ch: Challenge, now: SafeInt, ss: seq<Statement>, rs: seq<Readback>) {
    && |ss| == |rs|
    && (forall i :: 0 <= i < |ss| ==> SignedFor(c, v, ch, now, IndependentReadback, ss[i]))
    && (forall i :: 0 <= i < |ss| ==> c.readReadback(ss[i].payload) == Some(rs[i]))
  }

  /** All eight kinds, transcribed once, read back once and confirmed by the authority. */
  ghost predicate Agree(v: View, ch: Challenge, ps: seq<Probe>, rs: seq<Readback>) {
    && |ps| == |rs| == 8
    && (forall i, j :: 0 <= i < j < |ps| ==> ps[i].kind != ps[j].kind)
    && (forall i, j :: 0 <= i < j < |rs| ==> rs[i].kind != rs[j].kind)
    && (forall i, j :: 0 <= i < |ps| && 0 <= j < |rs| && ps[i].kind == rs[j].kind ==>
          && ps[i].id == rs[j].id && ps[i].digest == rs[j].digest
          && 0 < rs[j].observedAt && ps[i].observedAt <= rs[j].observedAt <= ch.expiresAt)
    && (forall j :: 0 <= j < |rs| ==>
          v.authority(j, rs[j].id) == Some(Anchor(rs[j].id, rs[j].kind, rs[j].digest, rs[j].parts)))
  }

  /** One signer to each role, with four different key texts. */
  ghost predicate FourSigners(e: Evidence, v: View) {
    && FourProducersSign(e)
    && var t := TextsBehind(e, v);
       t[0] != t[1] && t[0] != t[2] && t[0] != t[3] && t[1] != t[2] && t[1] != t[3] && t[2] != t[3]
  }

  function SightProbes(ss: seq<Statement>, ps: seq<Probe>): (r: Probes)
    requires |ss| == |ps|
    ensures |r| == |ss| && forall i :: 0 <= i < |ss| ==> r[i] == Seen(ss[i].producerId, ps[i].kind, ps[i])
  {
    seq(|ss|, i requires 0 <= i < |ss| => Seen(ss[i].producerId, ps[i].kind, ps[i]))
  }

  function SightReadbacks(ss: seq<Statement>, rs: seq<Readback>): (r: Readbacks)
    requires |ss| == |rs|
    ensures |r| == |ss| && forall i :: 0 <= i < |ss| ==> r[i] == Seen(ss[i].producerId, rs[i].kind, rs[i])
  {
    seq(|ss|, i requires 0 <= i < |ss| => Seen(ss[i].producerId, rs[i].kind, rs[i]))
  }

  ghost predicate Guaranteed(
      c: Checks, ch: Challenge, now: SafeInt, e: Evidence, v: View, ps: seq<Probe>, rs: seq<Readback>) {
    && now > 0
    && SignedFor(c, v, ch, now, DeploymentAnchor, e.deployment)
    && SignedFor(c, v, ch, now, ProviderEventAnchor, e.event)
    && Transcripts(c, v, ch, now, e.probes, ps) && ReadTwice(c, v, ch, now, e.readbacks, rs)
    && Agree(v, ch, ps, rs) && FourSigners(e, v)
    && ch.transcriptRoot == c.sha256Hex(Print(RootInput(c, Entries(SightProbes(e.probes, ps)))))
    && ch.authoritySnapshot
       == c.sha256Hex(Print(SnapshotInput(c, ContextOf(ch, now, e, v), Anchors(SightReadbacks(e.readbacks, rs)))))
  }

  // ---- One statement ----

  lemma SignedForExactly(c: Checks, ch: Challenge, now: SafeInt, e: Evidence, v: View, role: Role, s: Statement)
    requires now > 0
    ensures SignedFor(c, v, ch, now, role, s) <==>
            && Verified(c, ContextOf(ch, now, e, v), role, s)
            && v.registry[s.producerId].account == v.account
  {
  }

  lemma SeeProbeExactly(c: Checks, ch: Challenge, now: SafeInt, e: Evidence, v: View, s: Statement, p: Probe)
    requires now > 0
    ensures SeeProbe(c, ContextOf(ch, now, e, v), s) == Some(Seen(s.producerId, p.kind, p)) <==>
            && SignedFor(c, v, ch, now, ProbeTranscript, s) && c.readProbe(s.payload) == Some(p)
            && 0 < p.observedAt && v.eventObservedAt <= p.observedAt <= ch.expiresAt
  {
    SignedForExactly(c, ch, now, e, v, ProbeTranscript, s);
  }

  lemma SeeReadbackExactly(c: Checks, ch: Challenge, now: SafeInt, e: Evidence, v: View, s: Statement, r: Readback)
    requires now > 0
    ensures SeeReadback(c, ContextOf(ch, now, e, v), s) == Some(Seen(s.producerId, r.kind, r)) <==>
            SignedFor(c, v, ch, now, IndependentReadback, s) && c.readReadback(s.payload) == Some(r)
  {
    SignedForExactly(c, ch, now, e, v, IndependentReadback, s);
  }

  lemma ProbesShown(c: Checks, ch: Challenge, now: SafeInt, e: Evidence, v: View, ss: seq<Statement>, ps: seq<Probe>)
    requires now > 0 && |ss| == |ps|
    ensures SeenProbes(c, ContextOf(ch, now, e, v), ss, SightProbes(ss, ps)) <==> Transcripts(c, v, ch, now, ss, ps)
  {
    var seen := SightProbes(ss, ps);
    forall i | 0 <= i < |ss|
      ensures SeeProbe(c, ContextOf(ch, now, e, v), ss[i]) == Some(seen[i]) <==>
              && SignedFor(c, v, ch, now, ProbeTranscript, ss[i]) && c.readProbe(ss[i].payload) == Some(ps[i])
              && 0 < ps[i].observedAt && v.eventObservedAt <= ps[i].observedAt <= ch.expiresAt
    {
      SeeProbeExactly(c, ch, now, e, v, ss[i], ps[i]);
    }
  }

  lemma ReadbacksShown(
      c: Checks, ch: Challenge, now: SafeInt, e: Evidence, v: View, ss: seq<Statement>, rs: seq<Readback>)
    requires now > 0 && |ss| == |rs|
    ensures SeenReadbacks(c, ContextOf(ch, now, e, v), ss, SightReadbacks(ss, rs)) <==>
            ReadTwice(c, v, ch, now, ss, rs)
  {
    var seen := SightReadbacks(ss, rs);
    forall i | 0 <= i < |ss|
      ensures SeeReadback(c, ContextOf(ch, now, e, v), ss[i]) == Some(seen[i]) <==>
              && SignedFor(c, v, ch, now, IndependentReadback, ss[i]) && c.readReadback(ss[i].payload) == Some(rs[i])
    {
      SeeReadbackExactly(c, ch, now, e, v, ss[i], rs[i]);
    }
  }

  lemma SightOfProbes(c: Checks, ctx: Context, ss: seq<Statement>, seen: Probes) returns (ps: seq<Probe>)
    requires SeenProbes(c, ctx, ss, seen)
    ensures |ps| == |ss| && seen == SightProbes(ss, ps)
  {
    ps := seq(|seen|, i requires 0 <= i < |seen| => seen[i].item);
    forall i | 0 <= i < |ss|
      ensures seen[i] == SightProbes(ss, ps)[i]
    {
      assert SeeProbe(c, ctx, ss[i]) == Some(seen[i]);
    }
  }

  lemma SightOfReadbacks(c: Checks, ctx: Context, ss: seq<Statement>, seen: Readbacks) returns (rs: seq<Readback>)
    requires SeenReadbacks(c, ctx, ss, seen)
    ensures |rs| == |ss| && seen == SightReadbacks(ss, rs)
  {
    rs := seq(|seen|, i requires 0 <= i < |seen| => seen[i].item);
    forall i | 0 <= i < |ss|
      ensures seen[i] == SightReadbacks(ss, rs)[i]
    {
      assert SeeReadback(c, ctx, ss[i]) == Some(seen[i]);
    }
  }

  // ---- The eight kinds ----

  lemma AgreeMeans(ctx: Context, v: View, ps: Probes, rs: Readbacks, i: nat, j: nat)
    requires KindsDiffer(ps) && AllFollow(Fits(ctx.challenge.expiresAt), Asked(v.authority), ps, rs)
    requires i < |ps| && j < |rs| && ps[i].kind == rs[j].kind
    ensures FollowsUp(ctx.challenge.expiresAt, ps[i].item, rs[j].item)
  {
    var fits := Fits(ctx.challenge.expiresAt);
    assert WitnessLoops.Follows(fits, ps, rs[j]);
    var h :| 0 <= h < |ps| && ps[h].kind == rs[j].kind && fits(ps[h].item, rs[j].item);
    assert h == i;
  }

  lemma AgreeFollows(ctx: Context, v: View, ps: Probes, rs: Readbacks)
    requires |ps| == 8 && KindsDiffer(ps)
    requires forall i, j :: 0 <= i < |ps| && 0 <= j < |rs| && ps[i].kind == rs[j].kind ==>
                              FollowsUp(ctx.challenge.expiresAt, ps[i].item, rs[j].item)
    requires forall j :: 0 <= j < |rs| ==> Confirms(v.authority, j, rs[j].item)
    ensures AllFollow(Fits(ctx.challenge.expiresAt), Asked(v.authority), ps, rs)
  {
    KindsAreEight();
    var fits := Fits(ctx.challenge.expiresAt);
    forall j | 0 <= j < |rs|
      ensures WitnessLoops.Follows(fits, ps, rs[j]) && Asked(v.authority)(j, rs[j].item)
    {
      var i := EveryKindOnce(ps, KINDS, rs[j].kind);
      assert fits(ps[i].item, rs[j].item);
    }
  }

  lemma AgreeExactly(ctx: Context, v: View, ss: seq<Statement>, ps: seq<Probe>, ts: seq<Statement>, rs: seq<Readback>)
    requires |ss| == |ps| && |ts| == |rs|
    ensures var a, b := SightProbes(ss, ps), SightReadbacks(ts, rs);
            Agree(v, ctx.challenge, ps, rs) <==>
            && |a| == KIND_COUNT && |b| == KIND_COUNT && KindsDiffer(a) && KindsDiffer(b)
            && AllFollow(Fits(ctx.challenge.expiresAt), Asked(v.authority), a, b)
  {
    var a, b := SightProbes(ss, ps), SightReadbacks(ts, rs);
    if Agree(v, ctx.challenge, ps, rs) {
      AgreeFollows(ctx, v, a, b);
    }
    if |a| == KIND_COUNT && |b| == KIND_COUNT && KindsDiffer(a) && KindsDiffer(b)
       && AllFollow(Fits(ctx.challenge.expiresAt), Asked(v.authority), a, b) {
      forall i, j | 0 <= i < |ps| && 0 <= j < |rs| && ps[i].kind == rs[j].kind
        ensures FollowsUp(ctx.challenge.expiresAt, ps[i], rs[j])
      {
        AgreeMeans(ctx, v, a, b, i, j);
      }
      forall j | 0 <= j < |rs|
        ensures Confirms(v.authority, j, rs[j])
      {
        assert Asked(v.authority)(j, b[j].item);
      }
      forall i, j | 0 <= i < j < |ps| ensures ps[i].kind != ps[j].kind { assert a[i].kind != a[j].kind; }
      forall i, j | 0 <= i < j < |rs| ensures rs[i].kind != rs[j].kind { assert b[i].kind != b[j].kind; }
    }
  }

  // ---- The four signers ----

  lemma OneSigner<K, V>(ss: seq<Seen<Text, K, V>>)
    requires |ss| > 0 && forall i :: 0 <= i < |ss| ==> ss[i].producer == ss[0].producer
    ensures Signers(ss) == {ss[0].producer}
  {
    SignerIn(ss, |ss|, 0);
    forall id | id in Signers(ss)
      ensures id == ss[0].producer
    {
      var i := SignerIndex(ss, |ss|, id);
    }
  }

  lemma FourOf<T>(a: T, b: T, c: T, d: T)
    requires a != b && a != c && a != d && b != c && b != d && c != d
    ensures |{a, b, c, d}| == 4
  {
    assert {a, b, c, d} == {a} + {b} + {c} + {d};
  }

  lemma ImageOfFour(f: Text -> Text, a: Text, b: Text, c: Text, d: Text)
    ensures Image(f, {a, b, c, d}) == {f(a), f(b), f(c), f(d)}
  {
  }

  /** One signer to each list, and four key texts, are four producers with four keys. */
  lemma FourSignersCount(ctx: Context, ps: Probes, rs: Readbacks)
    requires |ps| > 0 && |rs| > 0
    requires forall i :: 0 <= i < |ps| ==> ps[i].producer == ps[0].producer
    requires forall i :: 0 <= i < |rs| ==> rs[i].producer == rs[0].producer
    requires var t := KeyTexts(ctx, ps, rs);
             t[0] != t[1] && t[0] != t[2] && t[0] != t[3] && t[1] != t[2] && t[1] != t[3] && t[2] != t[3]
    ensures |ProducerIds(ctx, ps, rs)| == 4 && |Image(Key(ctx.registry), ProducerIds(ctx, ps, rs))| == 4
  {
    var d, e, p, r := ctx.deploymentProducer, ctx.eventProducer, ps[0].producer, rs[0].producer;
    OneSigner(ps);
    OneSigner(rs);
    assert ProducerIds(ctx, ps, rs) == {d, e, p, r};
    FourOf(d, e, p, r);
    var key := Key(ctx.registry);
    ImageOfFour(key, d, e, p, r);
    FourOf(key(d), key(e), key(p), key(r));
  }

  // ---- Passing, exactly ----

  lemma AnchorsSigned(c: Checks, ch: Challenge, now: SafeInt, e: Evidence, v: View)
    requires Passes(c, ch, now, e, v)
    ensures now > 0
    ensures SignedFor(c, v, ch, now, DeploymentAnchor, e.deployment)
    ensures SignedFor(c, v, ch, now, ProviderEventAnchor, e.event)
  {
    SignedForExactly(c, ch, now, e, v, DeploymentAnchor, e.deployment);
    SignedForExactly(c, ch, now, e, v, ProviderEventAnchor, e.event);
  }

  lemma SeenAgree(c: Checks, ch: Challenge, now: SafeInt, e: Evidence, v: View, seen: Probes, read: Readbacks)
    returns (ps: seq<Probe>, rs: seq<Readback>)
    requires now > 0 && Shows(c, ContextOf(ch, now, e, v), e, seen, read)
    requires Complete(ContextOf(ch, now, e, v), v.authority, seen, read)
    ensures |ps| == |e.probes| && |rs| == |e.readbacks|
    ensures seen == SightProbes(e.probes, ps) && read == SightReadbacks(e.readbacks, rs)
    ensures Transcripts(c, v, ch, now, e.probes, ps) && ReadTwice(c, v, ch, now, e.readbacks, rs)
    ensures Agree(v, ch, ps, rs)
  {
    var ctx := ContextOf(ch, now, e, v);
    ps := SightOfProbes(c, ctx, e.probes, seen);
    rs := SightOfReadbacks(c, ctx, e.readbacks, read);
    ProbesShown(c, ch, now, e, v, e.probes, ps);
    ReadbacksShown(c, ch, now, e, v, e.readbacks, rs);
    AgreeExactly(ctx, v, e.probes, ps, e.readbacks, rs);
  }

  lemma SeenByFour(c: Checks, ctx: Context, e: Evidence, v: View, seen: Probes, read: Readbacks)
    requires ctx == ContextOf(ctx.challenge, ctx.now, e, v) && Shows(c, ctx, e, seen, read)
    requires Complete(ctx, v.authority, seen, read) && Settled(ctx, seen, read)
    requires forall i :: 0 <= i < |e.probes| ==> e.probes[i].producerId == seen[0].producer
    requires forall i :: 0 <= i < |e.readbacks| ==> e.readbacks[i].producerId == read[0].producer
    ensures FourSigners(e, v)
  {
    OneProducerPerRole(ctx, v.authority, seen, read);
    TextsAreKeyTexts(c, ctx, e, v, seen, read);
  }

  lemma PassingIsGuaranteed(c: Checks, ch: Challenge, now: SafeInt, e: Evidence, v: View)
    returns (ps: seq<Probe>, rs: seq<Readback>)
    requires Passes(c, ch, now, e, v)
    ensures Guaranteed(c, ch, now, e, v, ps, rs)
  {
    AnchorsSigned(c, ch, now, e, v);
    var seen, read := PassingShowsWitnesses(c, ch, now, e, v);
    ps, rs := SeenAgree(c, ch, now, e, v, seen, read);
    SeenByFour(c, ContextOf(ch, now, e, v), e, v, seen, read);
  }

  lemma GuaranteedShows(
      c: Checks, ch: Challenge, now: SafeInt, e: Evidence, v: View, ps: seq<Probe>, rs: seq<Readback>)
    requires Guaranteed(c, ch, now, e, v, ps, rs)
    ensures Shows(c, ContextOf(ch, now, e, v), e, SightProbes(e.probes, ps), SightReadbacks(e.readbacks, rs))
    ensures Complete(ContextOf(ch, now, e, v), v.authority, SightProbes(e.probes, ps), SightReadbacks(e.readbacks, rs))
  {
    var ctx := ContextOf(ch, now, e, v);
    ProbesShown(c, ch, now, e, v, e.probes, ps);
    ReadbacksShown(c, ch, now, e, v, e.readbacks, rs);
    AgreeExactly(ctx, v, e.probes, ps, e.readbacks, rs);
    FourSignersCount(ctx, SightProbes(e.probes, ps), SightReadbacks(e.readbacks, rs));
  }

  lemma GuaranteedPasses(
      c: Checks, ch: Challenge, now: SafeInt, e: Evidence, v: View, ps: seq<Probe>, rs: seq<Readback>)
    requires Guaranteed(c, ch, now, e, v, ps, rs)
    ensures Passes(c, ch, now, e, v)
  {
    GuaranteedShows(c, ch, now, e, v, ps, rs);
    SignedForExactly(c, ch, now, e, v, DeploymentAnchor, e.deployment);
    SignedForExactly(c, ch, now, e, v, ProviderEventAnchor, e.event);
    assert Acceptable(c, ContextOf(ch, now, e, v), v.authority, SightProbes(e.probes, ps),
                      SightReadbacks(e.readbacks, rs));
  }

  /** Evidence passes exactly when its statements are signed, in date, in time, complete and confirmed. */
  lemma PassesExactly(c: Checks, ch: Challenge, now: SafeInt, e: Evidence, v: View)
    ensures Passes(c, ch, now, e, v) <==>
            exists ps: seq<Probe>, rs: seq<Readback> :: Guaranteed(c, ch, now, e, v, ps, rs)
  {
    if Passes(c, ch, now, e, v) {
      var ps, rs := PassingIsGuaranteed(c, ch, now, e, v);
    }
    if ps: seq<Probe>, rs: seq<Readback> :| Guaranteed(c, ch, now, e, v, ps, rs) {
      GuaranteedPasses(c, ch, now, e, v, ps, rs);
    }
  }

  // ---- Receipts ----

  /** The challenge is for this evidence and runs at `now`, for no more than five minutes in all. */
  predicate Running(c: Checks, ch: Challenge, e: Evidence, now: SafeInt) {
    && IsSha256(ch.id) && IsSha256(ch.evidence) && IsSha256(ch.transcriptRoot) && IsSha256(ch.authoritySnapshot)
    && ch.id == e.challengeId && 0 < ch.sequence == e.sequence
    && ch.evidence == c.sha256Hex(Print(EvidenceJson(e)))
    && 0 < ch.issuedAt <= now <= ch.expiresAt <= ch.issuedAt + 300_000
  }

  /** A verification: the challenge, the time, the evidence, the registry and authority seen, and what was read. */
  datatype Foundation = Foundation(
    challenge: Challenge, now: SafeInt, evidence: Evidence, view: View, probes: seq<Probe>, readbacks: seq<Readback>)

  /** What stands behind a receipt. */
  ghost predicate Founded(c: Checks, r: P.Receipt, f: Foundation) {
    var ch := f.challenge;
    && r == P.Receipt(ch.id, ch.sequence, ch.evidence, ch.transcriptRoot, ch.authoritySnapshot)
    && Running(c, ch, f.evidence, f.now)
    && Guaranteed(c, ch, f.now, f.evidence, f.view, f.probes, f.readbacks)
  }

  lemma ReceiptIsFounded(c: Checks, es: seq<P.Event>, n: nat, r: P.Receipt) returns (f: Foundation)
    requires P.HasReceipt(P.Run(P.RulesOf(c), es), n, r)
    ensures Founded(c, r, f)
  {
    var k, p := P.ReceiptWasVerified(P.RulesOf(c), es, n, r);
    var ps, rs := PassingIsGuaranteed(c, p.challenge, p.now, p.evidence, es[k].view);
    f := Foundation(p.challenge, p.now, p.evidence, es[k].view, ps, rs);
  }

  lemma FoundedIsGiven(c: Checks, r: P.Receipt, f: Foundation)
    requires Founded(c, r, f)
    ensures exists es: seq<P.Event>, n: nat :: P.Gives(P.RulesOf(c), es, n, r)
  {
    GuaranteedPasses(c, f.challenge, f.now, f.evidence, f.view, f.probes, f.readbacks);
    assert P.MayHave(P.RulesOf(c), r, f.challenge, f.evidence, f.view, f.now);
    P.ReceiptsExactly(P.RulesOf(c), r);
  }

  /** Some behaviour gives a receipt exactly when one can be founded. */
  lemma ReceiptsFoundedExactly(c: Checks, r: P.Receipt)
    ensures (exists es: seq<P.Event>, n: nat :: P.Gives(P.RulesOf(c), es, n, r)) <==>
            (exists f: Foundation :: Founded(c, r, f))
  {
    if es: seq<P.Event>, n: nat :| P.Gives(P.RulesOf(c), es, n, r) {
      var f := ReceiptIsFounded(c, es, n, r);
    }
    if f: Foundation :| Founded(c, r, f) {
      FoundedIsGiven(c, r, f);
    }
  }

  // ---- Two receipts ----

  /** The transcripts behind a receipt: kind, probe id and digest of each. */
  ghost function TripleSet(ps: seq<Probe>): set<(Kind, Text, Text)> {
    set i | 0 <= i < |ps| :: (ps[i].kind, ps[i].id, ps[i].digest)
  }

  ghost function ReadingSet(rs: seq<Readback>): set<(Text, Kind, Text, Parts)> {
    set i | 0 <= i < |rs| :: (rs[i].id, rs[i].kind, rs[i].digest, rs[i].parts)
  }

  lemma SightTriples(ss: seq<Statement>, ps: seq<Probe>)
    requires |ss| == |ps|
    ensures Triples(SightProbes(ss, ps)) == TripleSet(ps)
  {
    var seen := SightProbes(ss, ps);
    assert forall i :: 0 <= i < |ps| ==>
      (seen[i].kind, seen[i].item.id, seen[i].item.digest) == (ps[i].kind, ps[i].id, ps[i].digest);
  }

  lemma SightReadings(ss: seq<Statement>, rs: seq<Readback>)
    requires |ss| == |rs|
    ensures Readings(SightReadbacks(ss, rs)) == ReadingSet(rs)
  {
    var seen := SightReadbacks(ss, rs);
    assert forall i :: 0 <= i < |rs| ==>
      (seen[i].item.id, seen[i].item.kind, seen[i].item.digest, seen[i].item.parts)
      == (rs[i].id, rs[i].kind, rs[i].digest, rs[i].parts);
  }

  lemma ProbesDiffer(ss: seq<Statement>, ps: seq<Probe>)
    requires |ss| == |ps| && forall i, j :: 0 <= i < j < |ps| ==> ps[i].kind != ps[j].kind
    ensures KindsDiffer(SightProbes(ss, ps))
  {
  }

  ghost function RootText(c: Checks, f: Foundation): Text
    requires |f.evidence.probes| == |f.probes|
  {
    Print(RootInput(c, Entries(SightProbes(f.evidence.probes, f.probes))))
  }

  /** Founded receipts have one transcript root exactly when their transcripts agree, unless the digest collides. */
  lemma RootSharedExactly(c: Checks, r: P.Receipt, f: Foundation, q: P.Receipt, g: Foundation)
    requires TotalOrder(c.kindOrder) && Founded(c, r, f) && Founded(c, q, g)
    ensures r.transcriptRoot == q.transcriptRoot <==>
            TripleSet(f.probes) == TripleSet(g.probes) || Collision(c.sha256Hex, RootText(c, f), RootText(c, g))
  {
    SightTriples(f.evidence.probes, f.probes);
    SightTriples(g.evidence.probes, g.probes);
    ProbesDiffer(f.evidence.probes, f.probes);
    ProbesDiffer(g.evidence.probes, g.probes);
    RootCovers(c, SightProbes(f.evidence.probes, f.probes), SightProbes(g.evidence.probes, g.probes));
  }

  ghost function SnapshotText(c: Checks, f: Foundation): Text
    requires |f.evidence.readbacks| == |f.readbacks|
  {
    Print(SnapshotInput(c, ContextOf(f.challenge, f.now, f.evidence, f.view),
                        Anchors(SightReadbacks(f.evidence.readbacks, f.readbacks))))
  }

  /** The active deployment and the event have no repeated keys, and the authority repeats its answers. */
  ghost predicate Steady(v: View) { Proper(v.active) && Proper(v.event) && Consistent(v.authority) }

  lemma ReadingsDiffer(v: View, ch: Challenge, ps: seq<Probe>, ss: seq<Statement>, rs: seq<Readback>)
    requires |ss| == |rs| && Agree(v, ch, ps, rs) && Consistent(v.authority)
    ensures IdsDiffer(SightReadbacks(ss, rs))
  {
    var seen := SightReadbacks(ss, rs);
    forall i, j | 0 <= i < j < |rs|
      ensures seen[i].item.id != seen[j].item.id
    {
      assert v.authority(i, rs[i].id) == v.authority(j, rs[i].id);
    }
  }

  /** Founded receipts have one snapshot exactly when deployment, event and readbacks agree, unless it collides. */
  lemma SnapshotSharedExactly(c: Checks, r: P.Receipt, f: Foundation, q: P.Receipt, g: Foundation)
    requires TotalOrder(c.idOrder) && Founded(c, r, f) && Founded(c, q, g) && Steady(f.view) && Steady(g.view)
    ensures r.authoritySnapshot == q.authoritySnapshot <==>
            || (&& SameValue(f.view.active, g.view.active) && SameValue(f.view.event, g.view.event)
                && ReadingSet(f.readbacks) == ReadingSet(g.readbacks))
            || Collision(c.sha256Hex, SnapshotText(c, f), SnapshotText(c, g))
  {
    var a, b := SightReadbacks(f.evidence.readbacks, f.readbacks), SightReadbacks(g.evidence.readbacks, g.readbacks);
    SightReadings(f.evidence.readbacks, f.readbacks);
    SightReadings(g.evidence.readbacks, g.readbacks);
    ReadingsDiffer(f.view, f.challenge, f.probes, f.evidence.readbacks, f.readbacks);
    ReadingsDiffer(g.view, g.challenge, g.probes, g.evidence.readbacks, g.readbacks);
    SnapshotCovers(c, ContextOf(f.challenge, f.now, f.evidence, f.view),
                   ContextOf(g.challenge, g.now, g.evidence, g.view), a, b);
  }

  /** Founded receipts have one evidence digest exactly when every statement agrees, unless the digest collides. */
  lemma EvidenceSharedExactly(c: Checks, r: P.Receipt, f: Foundation, q: P.Receipt, g: Foundation)
    requires Founded(c, r, f) && Founded(c, q, g) && ProperEvidence(f.evidence) && ProperEvidence(g.evidence)
    ensures r.evidence == q.evidence <==>
            || SameEvidence(f.evidence, g.evidence)
            || Collision(c.sha256Hex, Print(EvidenceJson(f.evidence)), Print(EvidenceJson(g.evidence)))
  {
    EvidenceCovers(f.evidence, g.evidence);
  }

  ghost predicate Covered(k: Kind, ps: seq<Probe>) {
    exists id: Text, digest: Text :: (k, id, digest) in TripleSet(ps)
  }

  /** Over any two behaviours, receipts with one transcript root rest on the same transcripts of all eight kinds. */
  lemma OneRootOneSet(c: Checks, es: seq<P.Event>, n: nat, r: P.Receipt, fs: seq<P.Event>, m: nat, q: P.Receipt)
    returns (f: Foundation, g: Foundation)
    requires P.HasReceipt(P.Run(P.RulesOf(c), es), n, r) && P.HasReceipt(P.Run(P.RulesOf(c), fs), m, q)
    requires TotalOrder(c.kindOrder)
    ensures Founded(c, r, f) && Founded(c, q, g)
    ensures forall k: Kind :: Covered(k, f.probes)
    ensures r.transcriptRoot == q.transcriptRoot <==>
            TripleSet(f.probes) == TripleSet(g.probes) || Collision(c.sha256Hex, RootText(c, f), RootText(c, g))
  {
    f := ReceiptIsFounded(c, es, n, r);
    g := ReceiptIsFounded(c, fs, m, q);
    RootSharedExactly(c, r, f, q, g);
    AllKindsCovered(f.evidence.probes, f.probes);
  }

  lemma AllKindsCovered(ss: seq<Statement>, ps: seq<Probe>)
    requires |ss| == |ps| == 8 && forall i, j :: 0 <= i < j < |ps| ==> ps[i].kind != ps[j].kind
    ensures forall k: Kind :: Covered(k, ps)
  {
    ProbesDiffer(ss, ps);
    KindsAreEight();
    forall k: Kind
      ensures Covered(k, ps)
    {
      var i := EveryKindOnce(SightProbes(ss, ps), KINDS, k);
      assert (ps[i].kind, ps[i].id, ps[i].digest) in TripleSet(ps);
    }
  }
}
