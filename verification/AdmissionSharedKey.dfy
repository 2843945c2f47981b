/** Admissions built from the ground up that end in a receipt, also when two of their four key texts are one key. */
module AdmissionSharedKey {
  import opened Wrappers
  import opened JsText
  import Base64url
  import opened CanonicalJson
  import opened RawJson
  import opened Admission
  import opened WitnessLoops
  import opened AdmissionWitnesses
  import opened AdmissionEvidence
  import opened AdmissionProtocol

  const KINDS_IN_ORDER: seq<Kind> := [
    LegacyNoObject, ExactSize, WrongSize, NoSuchUpload, UnknownAbort, CrashRetry, Cleanup, RollbackRefusal]

  const D: Text := [100]
  const E: Text := [101]
  const P: Text := [112]
  const R: Text := [114]

  function IdOf(role: Role): Text {
    match role
    case DeploymentAnchor => D
    case ProviderEventAnchor => E
    case ProbeTranscript => P
    case IndependentReadback => R
  }

  function Digits(i: nat): ProbeId
    requires i < 8
  {
    seq(32, _ => 48 + i)
  }

  // ---- The witnesses ----

  /** What the transcript and the readback of each kind hold: its digest, its resource texts, and two times. */
  datatype Held = Held(
    digest: nat -> Text, parts: nat -> Parts, probedAt: nat -> SafeInt, readAt: nat -> SafeInt)

  function ProbeHeld(h: Held, i: nat): Probe
    requires i < 8
  {
    Probe(Digits(i), KINDS_IN_ORDER[i], h.probedAt(i), h.digest(i))
  }

  function ReadbackHeld(h: Held, i: nat): Readback
    requires i < 8
  {
    Readback(Digits(i), KINDS_IN_ORDER[i], h.readAt(i), h.digest(i), h.parts(i))
  }

  function TheProbes(h: Held): (ps: Probes)
    ensures |ps| == 8 && forall i :: 0 <= i < 8 ==> ps[i] == Seen(P, KINDS_IN_ORDER[i], ProbeHeld(h, i))
  {
    seq(8, i requires 0 <= i < 8 => Seen(P, KINDS_IN_ORDER[i], ProbeHeld(h, i)))
  }

  function TheReadbacks(h: Held): (rs: Readbacks)
    ensures |rs| == 8 && forall i :: 0 <= i < 8 ==> rs[i] == Seen(R, KINDS_IN_ORDER[i], ReadbackHeld(h, i))
  {
    seq(8, i requires 0 <= i < 8 => Seen(R, KINDS_IN_ORDER[i], ReadbackHeld(h, i)))
  }

  /** Answers by the id alone: its first digit names the kind. */
  function Answer(h: Held, id: Text): Option<Anchor> {
    if |id| == 32 && 48 <= id[0] < 56 then
      var i := id[0] - 48;
      Some(Anchor(id, KINDS_IN_ORDER[i], h.digest(i), h.parts(i)))
    else None
  }

  function TheAuthority(h: Held): Authority { (n: nat, id: Text) => Answer(h, id) }

  // ---- Registry, evidence and view ----

  /** Everything that is left free: challenge, times, account, producers, witnesses, payloads and signatures. */
  datatype Setup = Setup(
    challenge: Text, sequence: SafeInt, issuedAt: SafeInt, expiresAt: SafeInt, now: SafeInt,
    account: Text, holder: Role -> Producer, held: Held, active: Json, event: Json, eventObservedAt: SafeInt,
    payload: (Role, nat) -> Json, signature: (Role, nat) -> Text)

  function KeyFor(s: Setup, role: Role): Text { s.holder(role).publicKey }

  predicate IsKeyText(t: Text) { |t| == Base64url.KEY_TEXT && Base64url.AllInAlphabet(t) }

  function TheRegistry(s: Setup): Registry {
    map[D := s.holder(DeploymentAnchor), E := s.holder(ProviderEventAnchor),
        P := s.holder(ProbeTranscript), R := s.holder(IndependentReadback)]
  }

  function StatementBy(s: Setup, role: Role, i: nat): Statement {
    Statement(STATEMENT_FORMAT, IdOf(role), s.holder(role).keyEpoch, s.challenge, s.sequence, ED25519,
              s.payload(role, i), s.signature(role, i))
  }

  function StatementsBy(s: Setup, role: Role): (r: seq<Statement>)
    ensures |r| == 8 && forall i :: 0 <= i < 8 ==> r[i] == StatementBy(s, role, i)
  {
    seq(8, i requires 0 <= i < 8 => StatementBy(s, role, i))
  }

  function TheEvidence(s: Setup): Evidence {
    Evidence(s.challenge, s.sequence, StatementBy(s, DeploymentAnchor, 0), StatementBy(s, ProviderEventAnchor, 0),
             StatementsBy(s, ProbeTranscript), StatementsBy(s, IndependentReadback))
  }

  function TheView(s: Setup): View {
    View(TheRegistry(s), s.account, s.active, s.event, s.eventObservedAt, TheAuthority(s.held))
  }

  function Open(c: Checks, s: Setup): Context {
    var ch := Challenge(s.challenge, s.sequence, s.issuedAt, s.expiresAt, Digest(c, TheEvidence(s)), [], []);
    ContextOf(ch, s.now, TheEvidence(s), TheView(s))
  }

  /** The challenge issued for this evidence: its digest, root and snapshot. */
  function TheChallenge(c: Checks, s: Setup): Challenge {
    IssuedFor(c, Open(c, s), TheProbes(s.held), TheReadbacks(s.held)).challenge
  }

  // ---- What is asked ----

  /** Four producers in force, one per role, with four different texts of 32-byte keys. */
  ghost predicate HoldersHold(s: Setup) {
    && IsSha256(s.account)
    && (forall role: Role ::
          var p := s.holder(role);
          p.role == role && p.account == s.account && p.keyEpoch > 0 && InForce(p, s.now) && IsKeyText(p.publicKey))
    && (forall a: Role, b: Role :: a != b ==> s.holder(a).publicKey != s.holder(b).publicKey)
  }

  ghost predicate TimesHold(s: Setup) {
    && s.sequence > 0 && 0 < s.issuedAt <= s.now <= s.expiresAt && s.expiresAt - s.issuedAt <= MAX_LIFETIME
    && forall i: nat :: i < 8 ==>
         0 < s.held.probedAt(i) && s.eventObservedAt <= s.held.probedAt(i) <= s.held.readAt(i) <= s.expiresAt
  }

  predicate SignedBy(c: Checks, s: Setup, role: Role, i: nat) {
    var key, signature := DecodeBase64url(KeyFor(s, role)), DecodeBase64url(s.signature(role, i));
    && key.Some? && signature.Some? && |signature.value| == 64
    && c.verify(key.value, SignedText(StatementBy(s, role, i)), signature.value)
  }

  /** Producers and times are in order, digests are SHA-256 texts and the eighteen signatures verify. */
  ghost predicate WellFormed(c: Checks, s: Setup) {
    && HoldersHold(s) && TimesHold(s) && IsSha256(s.challenge) && (forall t: Text :: IsSha256(c.sha256Hex(t)))
    && SignedBy(c, s, DeploymentAnchor, 0) && SignedBy(c, s, ProviderEventAnchor, 0)
    && (forall i :: 0 <= i < 8 ==> SignedBy(c, s, ProbeTranscript, i) && SignedBy(c, s, IndependentReadback, i))
  }

  /** The checks of one payload by itself take the sixteen payloads for what they hold. */
  ghost predicate PayloadsRead(c: Checks, s: Setup) {
    && (forall i: nat :: i < 8 ==> c.readProbe(s.payload(ProbeTranscript, i)) == Some(ProbeHeld(s.held, i)))
    && (forall i: nat :: i < 8 ==>
          c.readReadback(s.payload(IndependentReadback, i)) == Some(ReadbackHeld(s.held, i)))
  }

  ghost predicate Suits(c: Checks, s: Setup) { WellFormed(c, s) && PayloadsRead(c, s) }

  // ---- The witnesses are complete ----

  lemma KindsInOrderDiffer(i: nat, j: nat)
    requires i < j < 8
    ensures KINDS_IN_ORDER[i] != KINDS_IN_ORDER[j]
  {
  }

  lemma KindsAllDiffer(h: Held)
    ensures KindsDiffer(TheProbes(h)) && KindsDiffer(TheReadbacks(h))
  {
    var ps, rs := TheProbes(h), TheReadbacks(h);
    forall i, j | 0 <= i < j < 8
      ensures ps[i].kind != ps[j].kind && rs[i].kind != rs[j].kind
    {
      KindsInOrderDiffer(i, j);
    }
  }

  lemma AllConfirmed(s: Setup)
    requires TimesHold(s)
    ensures AllFollow(Fits(s.expiresAt), Asked(TheAuthority(s.held)), TheProbes(s.held), TheReadbacks(s.held))
  {
    var ps, rs := TheProbes(s.held), TheReadbacks(s.held);
    forall j | 0 <= j < |rs|
      ensures WitnessLoops.Follows(Fits(s.expiresAt), ps, rs[j]) && Asked(TheAuthority(s.held))(j, rs[j].item)
    {
      assert ps[j].kind == rs[j].kind && Fits(s.expiresAt)(ps[j].item, rs[j].item);
      assert Answer(s.held, Digits(j)) == Some(AnchorOf(rs[j].item));
    }
  }

  ghost predicate IsHere(s: Setup, ctx: Context) {
    && ctx.registry == TheRegistry(s)
    && ctx.deploymentProducer == D && ctx.eventProducer == E && ctx.challenge.expiresAt == s.expiresAt
  }

  lemma IdsDiffer()
    ensures D != E && D != P && D != R && E != P && E != R && P != R
  {
    assert D[0] != E[0] && D[0] != P[0] && D[0] != R[0] && E[0] != P[0] && E[0] != R[0] && P[0] != R[0];
  }

  lemma Registered(s: Setup, role: Role)
    ensures IdOf(role) in TheRegistry(s) && TheRegistry(s)[IdOf(role)] == s.holder(role)
    ensures KeyOf(TheRegistry(s), IdOf(role)) == KeyFor(s, role)
  {
    IdsDiffer();
  }

  lemma KeyIsWhole(s: Setup, role: Role)
    requires HoldersHold(s)
    ensures IsKeyText(KeyFor(s, role)) && |Base64url.Decode(KeyFor(s, role))| == 32
    ensures HasKey(TheRegistry(s), IdOf(role))
  {
    Registered(s, role);
    Base64url.KeyTextIsKey(KeyFor(s, role));
  }

  lemma TheIds(s: Setup, ctx: Context)
    requires IsHere(s, ctx)
    ensures ProducerIds(ctx, TheProbes(s.held), TheReadbacks(s.held)) == {D, E, P, R}
  {
    AllBy(TheProbes(s.held), 8, P);
    AllBy(TheReadbacks(s.held), 8, R);
  }

  lemma FourProducers(s: Setup, ctx: Context)
    requires HoldersHold(s) && IsHere(s, ctx)
    ensures |ProducerIds(ctx, TheProbes(s.held), TheReadbacks(s.held))| == 4
    ensures |Image(Key(ctx.registry), ProducerIds(ctx, TheProbes(s.held), TheReadbacks(s.held)))| == 4
  {
    TheIds(s, ctx);
    IdsDiffer();
    Registered(s, DeploymentAnchor);
    Registered(s, ProviderEventAnchor);
    Registered(s, ProbeTranscript);
    Registered(s, IndependentReadback);
    FourImages(Key(ctx.registry), D, E, P, R);
  }

  lemma IsComplete(s: Setup, ctx: Context)
    requires HoldersHold(s) && TimesHold(s) && IsHere(s, ctx)
    ensures Complete(ctx, TheAuthority(s.held), TheProbes(s.held), TheReadbacks(s.held))
  {
    KindsAllDiffer(s.held);
    AllConfirmed(s);
    FourProducers(s, ctx);
  }

  // ---- The evidence passes ----

  ghost function TheContext(c: Checks, s: Setup): Context {
    ContextOf(TheChallenge(c, s), s.now, TheEvidence(s), TheView(s))
  }

  /** What the statements are checked against. */
  ghost predicate Sees(s: Setup, ctx: Context) {
    && IsHere(s, ctx) && ctx.now == s.now && ctx.account == s.account && ctx.eventObservedAt == s.eventObservedAt
    && ctx.challenge.id == s.challenge && ctx.challenge.sequence == s.sequence
  }

  lemma Verifies(c: Checks, s: Setup, ctx: Context, role: Role, i: nat)
    requires HoldersHold(s) && TimesHold(s) && Sees(s, ctx) && SignedBy(c, s, role, i)
    ensures Admission.Verified(c, ctx, role, StatementBy(s, role, i))
    ensures ctx.registry[IdOf(role)].account == s.account
  {
    Registered(s, role);
    KeyIsWhole(s, role);
  }

  lemma ShowsProbe(c: Checks, s: Setup, ctx: Context, i: nat)
    requires Suits(c, s) && Sees(s, ctx) && i < 8
    ensures SeeProbe(c, ctx, StatementBy(s, ProbeTranscript, i)) == Some(TheProbes(s.held)[i])
  {
    Verifies(c, s, ctx, ProbeTranscript, i);
  }

  lemma ShowsReadback(c: Checks, s: Setup, ctx: Context, i: nat)
    requires Suits(c, s) && Sees(s, ctx) && i < 8
    ensures SeeReadback(c, ctx, StatementBy(s, IndependentReadback, i)) == Some(TheReadbacks(s.held)[i])
  {
    Verifies(c, s, ctx, IndependentReadback, i);
  }

  lemma ShowsThem(c: Checks, s: Setup, ctx: Context)
    requires Suits(c, s) && Sees(s, ctx)
    ensures Shows(c, ctx, TheEvidence(s), TheProbes(s.held), TheReadbacks(s.held))
  {
    var ps, rs := StatementsBy(s, ProbeTranscript), StatementsBy(s, IndependentReadback);
    forall i | 0 <= i < 8
      ensures SeeProbe(c, ctx, ps[i]) == Some(TheProbes(s.held)[i])
      ensures SeeReadback(c, ctx, rs[i]) == Some(TheReadbacks(s.held)[i])
    {
      ShowsProbe(c, s, ctx, i);
      ShowsReadback(c, s, ctx, i);
    }
  }

  lemma AreAcceptable(c: Checks, s: Setup)
    requires HoldersHold(s) && TimesHold(s)
    ensures Acceptable(c, TheContext(c, s), TheAuthority(s.held), TheProbes(s.held), TheReadbacks(s.held))
  {
    IsComplete(s, Open(c, s));
    CompleteIsAcceptable(c, Open(c, s), TheAuthority(s.held), TheProbes(s.held), TheReadbacks(s.held));
  }

  lemma EvidencePasses(c: Checks, s: Setup)
    requires Suits(c, s)
    ensures Passes(c, TheChallenge(c, s), s.now, TheEvidence(s), TheView(s))
    ensures ValidChallenge(RulesOf(c), TheChallenge(c, s), TheEvidence(s), s.now)
  {
    var ctx := TheContext(c, s);
    Verifies(c, s, ctx, DeploymentAnchor, 0);
    Verifies(c, s, ctx, ProviderEventAnchor, 0);
    ShowsThem(c, s, ctx);
    AreAcceptable(c, s);
  }

  // ---- Receipts ----

  /** Where the checks of one payload take what the sixteen hold, a run ends in a receipt. */
  lemma SetupHasReceipt(c: Checks, s: Setup) returns (es: seq<Event>, ch: Challenge, e: Evidence, v: View)
    requires Suits(c, s)
    ensures ch.id == s.challenge && e == TheEvidence(s) && v == TheView(s) && Consistent(v.authority)
    ensures Passes(c, ch, s.now, e, v) && ValidChallenge(RulesOf(c), ch, e, s.now)
    ensures HasReceipt(Run(RulesOf(c), es), 0, ReceiptFor(ch))
  {
    ch, e, v := TheChallenge(c, s), TheEvidence(s), TheView(s);
    es := Alone(ch, e, v, s.now);
    EvidencePasses(c, s);
    PassingCanHaveReceipt(RulesOf(c), ch, e, v, s.now);
  }

  lemma OneKey(s: Setup)
    requires HoldersHold(s) && Base64url.SpareTwins(KeyFor(s, DeploymentAnchor), KeyFor(s, ProviderEventAnchor))
    ensures D != E && HasKey(TheRegistry(s), D) && HasKey(TheRegistry(s), E)
    ensures DecodeBase64url(KeyOf(TheRegistry(s), D)) == DecodeBase64url(KeyOf(TheRegistry(s), E))
  {
    IdsDiffer();
    KeyIsWhole(s, DeploymentAnchor);
    KeyIsWhole(s, ProviderEventAnchor);
    Registered(s, DeploymentAnchor);
    Registered(s, ProviderEventAnchor);
    Base64url.SameKeyExactly(KeyFor(s, DeploymentAnchor), KeyFor(s, ProviderEventAnchor));
  }

  /** So it does when the texts of deployment and event producer are twins, and these two hold one key. */
  lemma SharedKeyHasReceipt(c: Checks, s: Setup) returns (es: seq<Event>, ch: Challenge, e: Evidence, v: View)
    requires Suits(c, s) && Base64url.SpareTwins(KeyFor(s, DeploymentAnchor), KeyFor(s, ProviderEventAnchor))
    ensures ch.id == s.challenge && Passes(c, ch, s.now, e, v) && ValidChallenge(RulesOf(c), ch, e, s.now)
    ensures HasReceipt(Run(RulesOf(c), es), 0, ReceiptFor(ch))
    ensures Consistent(v.authority)
    ensures var d, f := e.deployment.producerId, e.event.producerId;
            && d != f && HasKey(v.registry, d) && HasKey(v.registry, f)
            && DecodeBase64url(KeyOf(v.registry, d)) == DecodeBase64url(KeyOf(v.registry, f))
  {
    es, ch, e, v := SetupHasReceipt(c, s);
    OneKey(s);
  }

  // ---- Such platforms exist ----

  /** The number of the payload among the first `n`, if it is one of them. */
  function NumberOf(payload: nat -> Json, j: Json, n: nat): Option<nat> {
    if n == 0 then None else if payload(n - 1) == j then Some(n - 1) else NumberOf(payload, j, n - 1)
  }

  lemma {:induction false} NumberIs(payload: nat -> Json, i: nat, n: nat)
    requires i < n && forall k: nat, l: nat :: k < l < n ==> payload(k) != payload(l)
    ensures NumberOf(payload, payload(i), n) == Some(i)
    decreases n
  {
    if i < n - 1 { NumberIs(payload, i, n - 1); }
  }

  ghost predicate PayloadsDiffer(s: Setup, role: Role) {
    forall k: nat, l: nat :: k < l < 8 ==> s.payload(role, k) != s.payload(role, l)
  }

  function PayloadsOf(s: Setup, role: Role): nat -> Json { (i: nat) => s.payload(role, i) }

  function ProbeNumbered(c: Checks, s: Setup, j: Json): Option<Probe> {
    var i := NumberOf(PayloadsOf(s, ProbeTranscript), j, 8);
    if i.Some? && i.value < 8 then Some(ProbeHeld(s.held, i.value)) else c.readProbe(j)
  }

  function ReadbackNumbered(c: Checks, s: Setup, j: Json): Option<Readback> {
    var i := NumberOf(PayloadsOf(s, IndependentReadback), j, 8);
    if i.Some? && i.value < 8 then Some(ReadbackHeld(s.held, i.value)) else c.readReadback(j)
  }

  /** The platform, but for the sixteen payloads, which are read as what they hold. */
  function Reading(c: Checks, s: Setup): Checks {
    c.(readProbe := j => ProbeNumbered(c, s, j), readReadback := j => ReadbackNumbered(c, s, j))
  }

  /** Whatever the platform's signatures and digests, such readers of the payloads exist for every setup in order. */
  lemma SetupsExist(c: Checks, s: Setup)
    requires WellFormed(c, s) && PayloadsDiffer(s, ProbeTranscript) && PayloadsDiffer(s, IndependentReadback)
    ensures Suits(Reading(c, s), s)
    ensures Reading(c, s).verify == c.verify && Reading(c, s).sha256Hex == c.sha256Hex
  {
    var r := Reading(c, s);
    forall i: nat | i < 8
      ensures r.readProbe(s.payload(ProbeTranscript, i)) == Some(ProbeHeld(s.held, i))
      ensures r.readReadback(s.payload(IndependentReadback, i)) == Some(ReadbackHeld(s.held, i))
    {
      NumberIs(PayloadsOf(s, ProbeTranscript), i, 8);
      NumberIs(PayloadsOf(s, IndependentReadback), i, 8);
    }
    assert forall role: Role, i: nat :: SignedBy(c, s, role, i) ==> SignedBy(r, s, role, i);
  }

  /** A platform for which every signature verifies and every digest is one text. */
  function Trusting(): Checks {
    Checks((key, text, signature) => true, text => seq(64, _ => 48), j => None, j => None,
           (k, l) => true, (k, l) => true)
  }

  /** All at one time `t`, with numbers for payloads; the texts of keys, digests and resources are as given. */
  function SetupAt(
      t: SafeInt, challenge: Text, account: Text, key: Role -> Text, digest: nat -> Text, parts: nat -> Parts): Setup
  {
    Setup(challenge, 1, t, t, t, account, role => Producer(key(role), account, role, 1, t, t, None),
          Held(digest, parts, i => t, i => t), Null, Null, t,
          (role: Role, i: nat) => if i < 8 then Num(i) else Null, (role: Role, i: nat) => seq(86, _ => 65))
  }

  lemma SignatureIsWhole(t: Text)
    requires |t| == 86 && Base64url.AllInAlphabet(t)
    ensures DecodeBase64url(t).Some? && |DecodeBase64url(t).value| == 64
  {
    Base64url.DecodedCount(Base64url.Indices(t));
  }

  /** So for all well-formed texts some platform takes the evidence, and receipts are given at all. */
  lemma SetupsAreMet(
      t: SafeInt, challenge: Text, account: Text, key: Role -> Text, digest: nat -> Text, parts: nat -> Parts)
    returns (c: Checks, s: Setup)
    requires t > 0 && IsSha256(challenge) && IsSha256(account)
    requires forall role: Role :: IsKeyText(key(role))
    requires forall a: Role, b: Role :: a != b ==> key(a) != key(b)
    ensures s == SetupAt(t, challenge, account, key, digest, parts) && Suits(c, s)
  {
    s := SetupAt(t, challenge, account, key, digest, parts);
    SignatureIsWhole(s.signature(DeploymentAnchor, 0));
    assert forall role: Role :: KeyFor(s, role) == key(role);
    assert forall role: Role, i: nat :: SignedBy(Trusting(), s, role, i);
    SetupsExist(Trusting(), s);
    c := Reading(Trusting(), s);
  }
}
