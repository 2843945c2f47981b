/** The witnesses of a D2 admission: who signed what, and what the digests cover. */
module Admission {
  import opened Wrappers
  import opened JsText
  import opened Bytes
  import Base64url
  import opened Sorting
  import opened CanonicalJson
  import opened CanonicalJsonProofs
  import opened RawJson

  datatype Role = DeploymentAnchor | ProviderEventAnchor | ProbeTranscript | IndependentReadback

  datatype Producer = Producer(
    publicKey: Text, account: Text, role: Role, keyEpoch: SafeInt,
    validFrom: SafeInt, validThrough: SafeInt, revokedAt: Option<SafeInt>)

  type Registry = map<Text, Producer>

  datatype Challenge = Challenge(
    id: Text, sequence: SafeInt, issuedAt: SafeInt, expiresAt: SafeInt,
    evidence: Text, transcriptRoot: Text, authoritySnapshot: Text)

  datatype Statement = Statement(
    format: Text, producerId: Text, keyEpoch: SafeInt, challengeId: Text, sequence: SafeInt,
    algorithm: Text, payload: Json, signature: Text)

  datatype Kind =
    | LegacyNoObject | ExactSize | WrongSize | NoSuchUpload
    | UnknownAbort | CrashRetry | Cleanup | RollbackRefusal

  const KINDS: set<Kind> :=
    {LegacyNoObject, ExactSize, WrongSize, NoSuchUpload, UnknownAbort, CrashRetry, Cleanup, RollbackRefusal}

  const KIND_COUNT := 8

  function KindName(k: Kind): Text {
    match k
    case LegacyNoObject => Ascii("legacy-no-object")
    case ExactSize => Ascii("exact-size")
    case WrongSize => Ascii("wrong-size")
    case NoSuchUpload => Ascii("no-such-upload")
    case UnknownAbort => Ascii("unknown-abort")
    case CrashRetry => Ascii("crash-retry")
    case Cleanup => Ascii("cleanup")
    case RollbackRefusal => Ascii("rollback-refusal")
  }

  predicate IsProbeId(t: Text) {
    |t| == 32 && forall i :: 0 <= i < 32 ==> IsDigit(t[i]) || 97 <= t[i] <= 102
  }

  type ProbeId = t: Text | IsProbeId(t) witness seq(32, _ => 48)

  datatype Probe = Probe(id: ProbeId, kind: Kind, observedAt: SafeInt, digest: Text)

  /** The three resource readbacks: each a base64url text and its digest. */
  datatype Parts = Parts(d1: Text, d1Digest: Text, r2: Text, r2Digest: Text, quota: Text, quotaDigest: Text)

  datatype Readback = Readback(id: ProbeId, kind: Kind, observedAt: SafeInt, digest: Text, parts: Parts)
  datatype Anchor = Anchor(id: Text, kind: Kind, digest: Text, parts: Parts)

  /** The platform, and the checks of one transcript or readback payload by itself. */
  datatype Checks = Checks(
    verify: (bytes, Text, bytes) -> bool,
    sha256Hex: Text -> Text,
    readProbe: Json -> Option<Probe>,
    readReadback: Json -> Option<Readback>,
    kindOrder: (Kind, Kind) -> bool,
    idOrder: (ProbeId, ProbeId) -> bool)

  /** What is settled before the probes are looked at. */
  datatype Context = Context(
    registry: Registry, challenge: Challenge, now: SafeInt,
    account: Text, active: Json, event: Json, eventObservedAt: SafeInt,
    deploymentProducer: Text, eventProducer: Text)

  /** The answer of the independent authority to its n-th call, for one probe id. */
  type Authority = (nat, Text) -> Option<Anchor>

  // ---- One statement ----

  const STATEMENT_FORMAT: Text := Ascii("osl.cipher-store.d2-production-admission-statement.v1")
  const ED25519: Text := Ascii("Ed25519")
  const PRODUCER_ID: Text := Ascii("producer_id")
  const KEY_EPOCH: Text := Ascii("key_epoch")
  const CHALLENGE_ID: Text := Ascii("challenge_id")
  const SEQUENCE: Text := Ascii("sequence")
  const PAYLOAD: Text := Ascii("payload")

  function SignedValue(s: Statement): Json {
    Obj([(PRODUCER_ID, Str(s.producerId)), (KEY_EPOCH, Num(s.keyEpoch)), (CHALLENGE_ID, Str(s.challengeId)),
         (SEQUENCE, Num(s.sequence)), (PAYLOAD, s.payload)])
  }

  function SignedText(s: Statement): Text { STATEMENT_FORMAT + [0] + Print(SignedValue(s)) }

  function DecodeBase64url(t: Text): Option<bytes> {
    if t == [] || !Base64url.AllInAlphabet(t) then None else Some(Base64url.Decode(t))
  }

  predicate InForce(p: Producer, now: SafeInt) {
    && p.validFrom > 0 && p.validThrough > 0 && (p.revokedAt.Some? ==> p.revokedAt.value > 0)
    && p.validFrom <= now <= p.validThrough
    && (p.revokedAt.Some? ==> now < p.revokedAt.value)
  }

  /** `verifyStatement` returns rather than throws. */
  predicate Verified(checks: Checks, ctx: Context, role: Role, s: Statement) {
    && ctx.now > 0
    && s.format == STATEMENT_FORMAT && s.algorithm == ED25519
    && s.challengeId == ctx.challenge.id && s.sequence == ctx.challenge.sequence
    && s.producerId in ctx.registry
    && var p := ctx.registry[s.producerId];
       && InForce(p, ctx.now)
       && p.role == role && p.keyEpoch == s.keyEpoch && p.keyEpoch > 0 && IsSha256(p.account)
       && var key, signature := DecodeBase64url(p.publicKey), DecodeBase64url(s.signature);
          && key.Some? && |key.value| == 32 && signature.Some? && |signature.value| == 64
          && checks.verify(key.value, SignedText(s), signature.value)
  }

  lemma FieldNames()
    ensures PRODUCER_ID[0] == 112 && KEY_EPOCH[0] == 107 && CHALLENGE_ID[0] == 99 && SEQUENCE[0] == 115
    ensures PAYLOAD[0] == 112 && |PRODUCER_ID| != |PAYLOAD|
  {
    assert "producer_id"[0] == 'p' && "key_epoch"[0] == 'k' && "challenge_id"[0] == 'c';
    assert "sequence"[0] == 's' && "payload"[0] == 'p';
  }

  lemma SignedValueProper(s: Statement)
    requires Proper(s.payload)
    ensures Proper(SignedValue(s))
  {
    FieldNames();
  }

  /** Objects with the same distinct keys in the same order have the same value field by field. */
  lemma SameFields(a: seq<(Text, Json)>, b: seq<(Text, Json)>)
    requires |a| == |b| && DistinctKeys(a) && forall i :: 0 <= i < |a| ==> a[i].0 == b[i].0
    ensures SameValue(Obj(a), Obj(b)) <==> forall i :: 0 <= i < |a| ==> SameValue(a[i].1, b[i].1)
  {
    var v, w := Obj(a), Obj(b);
    if SameValue(v, w) {
      forall i | 0 <= i < |a|
        ensures SameValue(a[i].1, b[i].1)
      {
        assert v.members[i].1 < v.members[i];
        var j :| 0 <= j < |b| && v.members[i].0 == w.members[j].0 && SameValue(v.members[i].1, w.members[j].1);
        assert a[j].0 == b[j].0;
        assert i == j;
      }
    }
    if forall i :: 0 <= i < |a| ==> SameValue(a[i].1, b[i].1) {
      forall i | 0 <= i < |v.members|
        ensures exists j :: && 0 <= j < |w.members| && v.members[i].0 == w.members[j].0
                            && SameValue(v.members[i].1, w.members[j].1)
      {
        assert v.members[i].0 == w.members[i].0 && SameValue(v.members[i].1, w.members[i].1);
      }
    }
  }

  lemma FiveFields(a: seq<(Text, Json)>, b: seq<(Text, Json)>)
    requires |a| == |b| == 5 && DistinctKeys(a) && forall i :: 0 <= i < 5 ==> a[i].0 == b[i].0
    ensures SameValue(Obj(a), Obj(b)) <==>
            && SameValue(a[0].1, b[0].1) && SameValue(a[1].1, b[1].1) && SameValue(a[2].1, b[2].1)
            && SameValue(a[3].1, b[3].1) && SameValue(a[4].1, b[4].1)
  {
    SameFields(a, b);
  }

  lemma SameSignedValue(s: Statement, t: Statement)
    ensures SameValue(SignedValue(s), SignedValue(t)) <==>
            && s.producerId == t.producerId && s.keyEpoch == t.keyEpoch
            && s.challengeId == t.challengeId && s.sequence == t.sequence
            && SameValue(s.payload, t.payload)
  {
    FieldNames();
    var a, b := SignedValue(s).members, SignedValue(t).members;
    FiveFields(a, b);
    SameScalars(a[0].1, b[0].1);
    SameScalars(a[1].1, b[1].1);
    SameScalars(a[2].1, b[2].1);
    SameScalars(a[3].1, b[3].1);
  }

  lemma SameScalars(v: Json, w: Json)
    requires (v.Str? || v.Num?) && (w.Str? || w.Num?)
    ensures SameValue(v, w) <==> v == w
  {
  }

  lemma SamePrefix(p: Text, a: Text, b: Text)
    ensures p + a == p + b <==> a == b
  {
    assert (p + a)[|p|..] == a && (p + b)[|p|..] == b;
  }

  /** The signed text decides producer, epoch, challenge, sequence and payload: no signature carries over to another. */
  lemma SignedTextBinds(s: Statement, t: Statement)
    requires Proper(s.payload) && Proper(t.payload)
    ensures SignedText(s) == SignedText(t) <==>
            && s.producerId == t.producerId && s.keyEpoch == t.keyEpoch
            && s.challengeId == t.challengeId && s.sequence == t.sequence
            && SameValue(s.payload, t.payload)
  {
    SignedValueProper(s);
    SignedValueProper(t);
    PrintDecidesValue(SignedValue(s), SignedValue(t));
    SamePrefix(STATEMENT_FORMAT + [0], Print(SignedValue(s)), Print(SignedValue(t)));
    SameSignedValue(s, t);
  }

  /** A text is `format`, a zero, and a text that parses, keys ascending, to the value. */
  ghost predicate Tagged(t: Text, format: Text, v: Json) {
    && |t| > |format| && t[..|format|] == format && t[|format|] == 0
    && var read := Parse(t[|format| + 1..]);
       read.Some? && InOrder(read.value) && SameValue(v, read.value)
  }

  lemma TaggedPrint(t: Text, format: Text, v: Json)
    requires Proper(v) && t == format + [0] + Print(v)
    ensures Tagged(t, format, v)
  {
    PrintIsInOrder(v);
    assert t[|format| + 1..] == Print(v);
  }

  /** What is signed: the format, a zero, and the five fields. */
  lemma SignedTextReads(s: Statement)
    requires Proper(s.payload)
    ensures Tagged(SignedText(s), Ascii("osl.cipher-store.d2-production-admission-statement.v1"),
                   Obj([(Ascii("producer_id"), Str(s.producerId)), (Ascii("key_epoch"), Num(s.keyEpoch)),
                        (Ascii("challenge_id"), Str(s.challengeId)), (Ascii("sequence"), Num(s.sequence)),
                        (Ascii("payload"), s.payload)]))
  {
    SignedValueProper(s);
    TaggedPrint(SignedText(s), STATEMENT_FORMAT, SignedValue(s));
  }
}
