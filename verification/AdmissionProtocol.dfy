/** Single-use admission: load, verify and compare-and-swap, over a durable table shared by any number of runs. */
module AdmissionProtocol {
  import opened Wrappers
  import opened JsText
  import opened CanonicalJson
  import opened RawJson
  import opened Admission
  import opened AdmissionWitnesses
  import opened AdmissionEvidence

  const MAX_LIFETIME := 5 * 60 * 1000

  datatype Consumed = Consumed(at: SafeInt, evidence: Text, transcriptRoot: Text, authoritySnapshot: Text)

  datatype Row = Row(
    sequence: SafeInt, issuedAt: SafeInt, expiresAt: SafeInt,
    evidence: Text, transcriptRoot: Text, authoritySnapshot: Text, consumed: Option<Consumed>)

  type Table = map<Text, Row>

  datatype Consumption = Consumption(
    id: Text, sequence: SafeInt, evidence: Text, transcriptRoot: Text, authoritySnapshot: Text,
    consumedAt: SafeInt, expiresAt: SafeInt)

  // ---- The two database operations ----

  predicate SoundRow(row: Row) {
    && row.sequence > 0 && row.issuedAt > 0 && row.expiresAt > 0
    && IsSha256(row.evidence) && IsSha256(row.transcriptRoot) && IsSha256(row.authoritySnapshot)
  }

  /** The challenge of a row; absent when there is none, or when reading it throws. */
  function ChallengeIn(table: Table, id: Text): Option<Challenge> {
    if IsSha256(id) && id in table && SoundRow(table[id]) then
      var row := table[id];
      Some(Challenge(
             id, row.sequence, row.issuedAt, row.expiresAt,
             row.evidence, row.transcriptRoot, row.authoritySnapshot))
    else None
  }

  /** The checks before the UPDATE is issued. */
  predicate SoundInput(i: Consumption) {
    && IsSha256(i.id) && i.sequence > 0 && i.consumedAt > 0 && i.expiresAt > 0 && i.consumedAt <= i.expiresAt
    && IsSha256(i.evidence) && IsSha256(i.transcriptRoot) && IsSha256(i.authoritySnapshot)
  }

  /** The WHERE clause. */
  predicate Selects(table: Table, authority: Option<Text>, i: Consumption) {
    && i.id in table
    && var row := table[i.id];
       && row.sequence == i.sequence && row.expiresAt == i.expiresAt
       && row.evidence == i.evidence && row.transcriptRoot == i.transcriptRoot
       && row.authoritySnapshot == i.authoritySnapshot
       && authority == Some(i.authoritySnapshot)
       && row.consumed.None?
       && row.expiresAt >= i.consumedAt
  }

  function ConsumedBy(i: Consumption): Consumed {
    Consumed(i.consumedAt, i.evidence, i.transcriptRoot, i.authoritySnapshot)
  }

  predicate Wins(table: Table, authority: Option<Text>, i: Consumption) {
    SoundInput(i) && Selects(table, authority, i)
  }

  function AfterConsume(table: Table, authority: Option<Text>, i: Consumption): Table {
    if Wins(table, authority, i) then table[i.id := table[i.id].(consumed := Some(ConsumedBy(i)))] else table
  }

  /** One row is consumed, and nothing else changes, exactly when every value is as issued and there is time left. */
  ghost predicate UpdateIs(before: Table, after: Table, authority: Option<Text>, i: Consumption, won: bool) {
    && (won <==>
          && IsSha256(i.id) && IsSha256(i.evidence) && IsSha256(i.transcriptRoot) && IsSha256(i.authoritySnapshot)
          && i.sequence > 0 && 0 < i.consumedAt <= i.expiresAt && authority == Some(i.authoritySnapshot)
          && i.id in before
          && before[i.id] == Row(i.sequence, before[i.id].issuedAt, i.expiresAt,
                                 i.evidence, i.transcriptRoot, i.authoritySnapshot, None))
    && (won ==>
          && i.id in after
          && after[i.id] == before[i.id].(
               consumed := Some(Consumed(i.consumedAt, i.evidence, i.transcriptRoot, i.authoritySnapshot))))
    && (!won ==> after == before)
    && (forall id :: id in after <==> id in before)
    && (forall id :: id in after && id != i.id ==> after[id] == before[id])
  }

  lemma UpdatesExactly(table: Table, authority: Option<Text>, i: Consumption)
    ensures UpdateIs(table, AfterConsume(table, authority, i), authority, i, Wins(table, authority, i))
  {
  }

  class Durable {
    var challenges: Table
    var authority: Option<Text>

    method LoadChallenge(id: Text) returns (r: Option<Challenge>)
      ensures r == ChallengeIn(challenges, id)
    {
      if !IsSha256(id) || id !in challenges {
        return None;
      }
      var row := challenges[id];
      if row.sequence <= 0 || row.issuedAt <= 0 || row.expiresAt <= 0 {
        return None;
      }
      if !IsSha256(row.evidence) || !IsSha256(row.transcriptRoot) || !IsSha256(row.authoritySnapshot) {
        return None;
      }
      return Some(Challenge(
                    id, row.sequence, row.issuedAt, row.expiresAt,
                    row.evidence, row.transcriptRoot, row.authoritySnapshot));
    }

    /** The conditional UPDATE and its change count; nothing when the input is refused. */
    method RunConsume(i: Consumption) returns (changes: Option<nat>)
      modifies this`challenges
      ensures challenges == AfterConsume(old(challenges), authority, i)
      ensures changes == if !SoundInput(i) then None
                         else if Selects(old(challenges), authority, i) then Some(1) else Some(0)
    {
      if !SoundInput(i) {
        return None;
      }
      if !Selects(challenges, authority, i) {
        return Some(0);
      }
      challenges := challenges[i.id := challenges[i.id].(consumed := Some(ConsumedBy(i)))];
      return Some(1);
    }

    method ConsumeChallenge(i: Consumption) returns (consumed: bool)
      modifies this`challenges
      ensures challenges == AfterConsume(old(challenges), authority, i)
      ensures consumed <==> Wins(old(challenges), authority, i)
      ensures UpdateIs(old(challenges), challenges, authority, i, consumed)
    {
      UpdatesExactly(challenges, authority, i);
      var changes := RunConsume(i);
      consumed := changes == Some(1);
    }
  }

  // ---- Runs ----

  /** The digest of evidence, and whether it passes for a challenge at a time, given what the authority answers. */
  datatype Rules = Rules(digest: Evidence -> Text, passes: (Challenge, SafeInt, Evidence, View) -> bool)

  predicate ValidChallenge(rules: Rules, ch: Challenge, e: Evidence, now: SafeInt) {
    && IsSha256(ch.id) && e.challengeId == ch.id && e.sequence == ch.sequence
    && IsSha256(ch.evidence) && IsSha256(ch.transcriptRoot) && IsSha256(ch.authoritySnapshot)
    && ch.evidence == rules.digest(e)
    && ch.sequence > 0 && 0 < ch.issuedAt <= now && 0 < ch.expiresAt && now <= ch.expiresAt
    && ch.expiresAt - ch.issuedAt <= MAX_LIFETIME
  }

  datatype Receipt = Receipt(id: Text, sequence: SafeInt, evidence: Text, transcriptRoot: Text, authoritySnapshot: Text)

  function ReceiptOf(i: Consumption): Receipt {
    Receipt(i.id, i.sequence, i.evidence, i.transcriptRoot, i.authoritySnapshot)
  }

  /** Where a run stands; every arrow may be separated by steps of other runs and of the environment. */
  datatype Phase =
    | Started(evidence: Evidence, now: SafeInt)
    | Loaded(challenge: Challenge, evidence: Evidence, now: SafeInt)
    | Verified(challenge: Challenge)
    | Timed(input: Consumption)
    | Swapped(input: Consumption, won: bool)
    | Returned(receipt: Receipt)
    | Failed

  /** `winners` remembers which run's UPDATE changed each row. */
  datatype State = State(
    table: Table, authority: Option<Text>, clock: SafeInt, runs: map<nat, Phase>, winners: map<Text, nat>)

  const INITIAL := State(map[], None, 0, map[], map[])

  datatype Event =
    | SetClock(time: SafeInt)
    | SetAuthority(snapshot: Option<Text>)
    | Issue(id: Text, row: Row)
    | Start(run: nat, evidence: Evidence)
    | Load(run: nat)
    | Verify(run: nat, view: View)
    | ReadClock(run: nat)
    | Swap(run: nat)
    | Return(run: nat)
    | Crash(run: nat)

  function AfterLoad(rules: Rules, table: Table, e: Evidence, now: SafeInt): Phase {
    var ch := ChallengeIn(table, e.challengeId);
    if now > 0 && ch.Some? && ValidChallenge(rules, ch.value, e, now) then Loaded(ch.value, e, now) else Failed
  }

  function AfterVerify(rules: Rules, ch: Challenge, e: Evidence, now: SafeInt, view: View): Phase {
    if rules.passes(ch, now, e, view) then Verified(ch) else Failed
  }

  function AfterClock(ch: Challenge, now: SafeInt): Phase {
    if 0 < now <= ch.expiresAt
    then Timed(Consumption(ch.id, ch.sequence, ch.evidence, ch.transcriptRoot, ch.authoritySnapshot, now, ch.expiresAt))
    else Failed
  }

  /** The environment moves the clock and the authority state as it likes and issues unconsumed challenges. */
  ghost function Step(rules: Rules, s: State, e: Event): State {
    match e
    case SetClock(t) => s.(clock := t)
    case SetAuthority(a) => s.(authority := a)
    case Issue(id, row) => if id in s.table then s else s.(table := s.table[id := row.(consumed := None)])
    case Start(n, evidence) => if n in s.runs then s else s.(runs := s.runs[n := Started(evidence, s.clock)])
    case Load(n) =>
      if n in s.runs && s.runs[n].Started?
      then s.(runs := s.runs[n := AfterLoad(rules, s.table, s.runs[n].evidence, s.runs[n].now)]) else s
    case Verify(n, view) =>
      if n in s.runs && s.runs[n].Loaded? then
        var p := s.runs[n];
        s.(runs := s.runs[n := AfterVerify(rules, p.challenge, p.evidence, p.now, view)])
      else s
    case ReadClock(n) =>
      if n in s.runs && s.runs[n].Verified?
      then s.(runs := s.runs[n := AfterClock(s.runs[n].challenge, s.clock)]) else s
    case Swap(n) => if n in s.runs && s.runs[n].Timed? then AfterSwap(s, n, s.runs[n].input) else s
    case Return(n) =>
      if n in s.runs && s.runs[n].Swapped?
      then s.(runs := s.runs[n := if s.runs[n].won then Returned(ReceiptOf(s.runs[n].input)) else Failed]) else s
    case Crash(n) => if n in s.runs && !s.runs[n].Returned? then s.(runs := s.runs[n := Failed]) else s
  }

  /** One atomic UPDATE. */
  function AfterSwap(s: State, n: nat, i: Consumption): State {
    var won := Wins(s.table, s.authority, i);
    State(AfterConsume(s.table, s.authority, i), s.authority, s.clock, s.runs[n := Swapped(i, won)],
          if won then s.winners[i.id := n] else s.winners)
  }

  ghost function Run(rules: Rules, es: seq<Event>): State {
    if es == [] then INITIAL else Step(rules, Run(rules, es[..|es| - 1]), es[|es| - 1])
  }

  // ---- What every behaviour keeps ----

  /** The receipt of a run whose UPDATE changed a row. */
  function Won(p: Phase): Option<Receipt> {
    match p
    case Swapped(i, won) => if won then Some(ReceiptOf(i)) else None
    case Returned(r) => Some(r)
    case _ => None
  }

  predicate Records(row: Row, r: Receipt) {
    && row.consumed.Some?
    && row.consumed.value.evidence == r.evidence == row.evidence
    && row.consumed.value.transcriptRoot == r.transcriptRoot == row.transcriptRoot
    && row.consumed.value.authoritySnapshot == r.authoritySnapshot == row.authoritySnapshot
    && row.sequence == r.sequence && row.consumed.value.at <= row.expiresAt
  }

  ghost predicate WinnersHold(s: State) {
    forall n :: n in s.runs && Won(s.runs[n]).Some? ==>
      var r := Won(s.runs[n]).value;
      r.id in s.winners && s.winners[r.id] == n && r.id in s.table && Records(s.table[r.id], r)
  }

  ghost predicate RowsHold(s: State) {
    forall id :: id in s.winners <==> id in s.table && s.table[id].consumed.Some?
  }

  lemma StepKeepsRows(rules: Rules, s: State, e: Event)
    requires RowsHold(s)
    ensures RowsHold(Step(rules, s, e))
  {
  }

  lemma StepKeepsWinners(rules: Rules, s: State, e: Event)
    requires RowsHold(s) && WinnersHold(s)
    ensures WinnersHold(Step(rules, s, e))
  {
  }

  lemma {:induction false} EveryRunHolds(rules: Rules, es: seq<Event>)
    ensures RowsHold(Run(rules, es)) && WinnersHold(Run(rules, es))
    decreases |es|
  {
    if es != [] {
      EveryRunHolds(rules, es[..|es| - 1]);
      StepKeepsRows(rules, Run(rules, es[..|es| - 1]), es[|es| - 1]);
      StepKeepsWinners(rules, Run(rules, es[..|es| - 1]), es[|es| - 1]);
    }
  }

  ghost predicate HasReceipt(s: State, n: nat, r: Receipt) { n in s.runs && s.runs[n] == Returned(r) }

  /** Over every interleaving, at most one run per challenge returns a receipt. */
  lemma AtMostOneReceipt(rules: Rules, es: seq<Event>, m: nat, n: nat, q: Receipt, r: Receipt)
    requires HasReceipt(Run(rules, es), m, q) && HasReceipt(Run(rules, es), n, r) && q.id == r.id
    ensures m == n && q == r
  {
    EveryRunHolds(rules, es);
    assert Won(Run(rules, es).runs[m]) == Some(q) && Won(Run(rules, es).runs[n]) == Some(r);
  }

  /** The row of a receipt is consumed with exactly the receipt's digests, which are those it was issued for. */
  lemma ReceiptMatchesRow(rules: Rules, es: seq<Event>, n: nat, r: Receipt)
    requires HasReceipt(Run(rules, es), n, r)
    ensures r.id in Run(rules, es).table && Records(Run(rules, es).table[r.id], r)
  {
    EveryRunHolds(rules, es);
    assert Won(Run(rules, es).runs[n]) == Some(r);
  }

  lemma RunStep(rules: Rules, es: seq<Event>, e: Event)
    ensures Run(rules, es + [e]) == Step(rules, Run(rules, es), e)
  {
    assert (es + [e])[..|es|] == es;
  }

  lemma {:induction false} RunSuffix(rules: Rules, es: seq<Event>, fs: seq<Event>)
    requires fs != []
    ensures Run(rules, es + fs) == Step(rules, Run(rules, es + fs[..|fs| - 1]), fs[|fs| - 1])
  {
    assert es + fs == (es + fs[..|fs| - 1]) + [fs[|fs| - 1]];
    RunStep(rules, es + fs[..|fs| - 1], fs[|fs| - 1]);
  }

  lemma StepKeepsConsumed(rules: Rules, s: State, e: Event, id: Text)
    requires id in s.table && s.table[id].consumed.Some?
    ensures id in Step(rules, s, e).table && Step(rules, s, e).table[id] == s.table[id]
  {
  }

  /** A consumed row never changes again. */
  lemma {:induction false} ConsumedRowStays(rules: Rules, es: seq<Event>, fs: seq<Event>, id: Text)
    requires id in Run(rules, es).table && Run(rules, es).table[id].consumed.Some?
    ensures id in Run(rules, es + fs).table && Run(rules, es + fs).table[id] == Run(rules, es).table[id]
    decreases |fs|
  {
    if fs == [] {
      assert es + fs == es;
    } else {
      ConsumedRowStays(rules, es, fs[..|fs| - 1], id);
      RunSuffix(rules, es, fs);
      StepKeepsConsumed(rules, Run(rules, es + fs[..|fs| - 1]), fs[|fs| - 1], id);
    }
  }

  lemma StepKeepsReceipt(rules: Rules, s: State, e: Event, n: nat, r: Receipt)
    requires HasReceipt(s, n, r)
    ensures HasReceipt(Step(rules, s, e), n, r)
  {
  }

  /** A returned receipt stays returned. */
  lemma {:induction false} ReceiptStays(rules: Rules, es: seq<Event>, fs: seq<Event>, n: nat, r: Receipt)
    requires HasReceipt(Run(rules, es), n, r)
    ensures HasReceipt(Run(rules, es + fs), n, r)
    decreases |fs|
  {
    if fs == [] {
      assert es + fs == es;
    } else {
      ReceiptStays(rules, es, fs[..|fs| - 1], n, r);
      RunSuffix(rules, es, fs);
      StepKeepsReceipt(rules, Run(rules, es + fs[..|fs| - 1]), fs[|fs| - 1], n, r);
    }
  }

  /** Event `k` is the UPDATE of run `n`, and it changes the row of `r` under the receipt's authority state. */
  ghost predicate SwapsAt(rules: Rules, es: seq<Event>, k: nat, n: nat, r: Receipt) {
    && k < |es| && es[k] == Swap(n)
    && var s := Run(rules, es[..k]);
       && n in s.runs && s.runs[n].Timed? && ReceiptOf(s.runs[n].input) == r
       && Wins(s.table, s.authority, s.runs[n].input)
  }

  lemma SwapsEarlier(rules: Rules, es: seq<Event>, k: nat, n: nat, r: Receipt)
    requires es != [] && SwapsAt(rules, es[..|es| - 1], k, n, r)
    ensures SwapsAt(rules, es, k, n, r)
  {
    assert es[..|es| - 1][..k] == es[..k];
  }

  lemma WonByLastStep(rules: Rules, s: State, e: Event, n: nat, r: Receipt)
    requires n in Step(rules, s, e).runs && Won(Step(rules, s, e).runs[n]) == Some(r)
    ensures n in s.runs
    ensures Won(s.runs[n]) == Some(r)
      || (&& e == Swap(n) && s.runs[n].Timed? && ReceiptOf(s.runs[n].input) == r
          && Wins(s.table, s.authority, s.runs[n].input))
  {
  }

  lemma {:induction false} WinnerSwapped(rules: Rules, es: seq<Event>, n: nat, r: Receipt) returns (k: nat)
    requires n in Run(rules, es).runs && Won(Run(rules, es).runs[n]) == Some(r)
    ensures SwapsAt(rules, es, k, n, r)
    decreases |es|
  {
    var before, e := es[..|es| - 1], es[|es| - 1];
    WonByLastStep(rules, Run(rules, before), e, n, r);
    if Won(Run(rules, before).runs[n]) == Some(r) {
      k := WinnerSwapped(rules, before, n, r);
      SwapsEarlier(rules, es, k, n, r);
    } else {
      k := |es| - 1;
    }
  }

  /** A receipt comes from an UPDATE of an unconsumed, unexpired row under the receipt's own authority state. */
  lemma ReceiptMatchedAuthority(rules: Rules, es: seq<Event>, n: nat, r: Receipt) returns (k: nat)
    requires HasReceipt(Run(rules, es), n, r)
    ensures SwapsAt(rules, es, k, n, r)
    ensures var s := Run(rules, es[..k]);
            && s.authority == Some(r.authoritySnapshot)
            && r.id in s.table && s.table[r.id].consumed.None?
            && s.runs[n].input.consumedAt <= s.table[r.id].expiresAt
  {
    k := WinnerSwapped(rules, es, n, r);
  }

  /** No two winning UPDATEs ever meet on one challenge. */
  lemma OneSwapPerChallenge(rules: Rules, es: seq<Event>, j: nat, k: nat, m: nat, n: nat, q: Receipt, r: Receipt)
    requires SwapsAt(rules, es, j, m, q) && SwapsAt(rules, es, k, n, r) && q.id == r.id
    ensures j == k && m == n && q == r
  {
    if j < k { SwapTwice(rules, es, j, k, m, n, q, r); }
    if k < j { SwapTwice(rules, es, k, j, n, m, r, q); }
  }

  lemma SwapTwice(rules: Rules, es: seq<Event>, j: nat, k: nat, m: nat, n: nat, q: Receipt, r: Receipt)
    requires SwapsAt(rules, es, j, m, q) && SwapsAt(rules, es, k, n, r) && j < k
    ensures q.id != r.id
  {
    var before := es[..j];
    RunStep(rules, before, es[j]);
    var middle := es[j + 1..k];
    assert es[..k] == (before + [es[j]]) + middle;
    ConsumedRowStays(rules, before + [es[j]], middle, q.id);
  }

  // ---- When it was consumed ----

  /** Event `k` is the clock reading of run `n`, and the clock then showed `time`. */
  ghost predicate ReadsAt(rules: Rules, es: seq<Event>, k: nat, n: nat, time: SafeInt) {
    k < |es| && es[k] == ReadClock(n) && Run(rules, es[..k]).clock == time
  }

  lemma ReadsEarlier(rules: Rules, es: seq<Event>, k: nat, n: nat, time: SafeInt)
    requires es != [] && ReadsAt(rules, es[..|es| - 1], k, n, time)
    ensures ReadsAt(rules, es, k, n, time)
  {
    assert es[..|es| - 1][..k] == es[..k];
  }

  lemma TimedByLastStep(rules: Rules, s: State, e: Event, n: nat, i: Consumption)
    requires n in Step(rules, s, e).runs && Step(rules, s, e).runs[n] == Timed(i)
    ensures n in s.runs && (s.runs[n] == Timed(i) || (e == ReadClock(n) && i.consumedAt == s.clock))
  {
  }

  lemma {:induction false} TimedWasRead(rules: Rules, es: seq<Event>, n: nat, i: Consumption) returns (k: nat)
    requires n in Run(rules, es).runs && Run(rules, es).runs[n] == Timed(i)
    ensures ReadsAt(rules, es, k, n, i.consumedAt)
    decreases |es|
  {
    var before, e := es[..|es| - 1], es[|es| - 1];
    TimedByLastStep(rules, Run(rules, before), e, n, i);
    if Run(rules, before).runs[n] == Timed(i) {
      k := TimedWasRead(rules, before, n, i);
      ReadsEarlier(rules, es, k, n, i.consumedAt);
    } else {
      k := |es| - 1;
    }
  }

  lemma SwapRecords(rules: Rules, s: State, n: nat)
    requires n in s.runs && s.runs[n].Timed? && Wins(s.table, s.authority, s.runs[n].input)
    ensures var i, t := s.runs[n].input, Step(rules, s, Swap(n)).table;
            && i.id in t && t[i.id] == s.table[i.id].(consumed := t[i.id].consumed)
            && t[i.id].consumed == Some(Consumed(i.consumedAt, i.evidence, i.transcriptRoot, i.authoritySnapshot))
  {
  }

  lemma SwapRecordStays(rules: Rules, es: seq<Event>, k: nat, n: nat, r: Receipt)
    requires SwapsAt(rules, es, k, n, r)
    ensures var i, t := Run(rules, es[..k]).runs[n].input, Run(rules, es).table;
            r.id in t && t[r.id].consumed.Some? && t[r.id].consumed.value.at == i.consumedAt
  {
    SwapRecords(rules, Run(rules, es[..k]), n);
    RunStep(rules, es[..k], es[k]);
    assert es == (es[..k] + [es[k]]) + es[k + 1..];
    ConsumedRowStays(rules, es[..k] + [es[k]], es[k + 1..], r.id);
  }

  /** The row of a receipt is stamped with the time its own run read off the clock, within the row's lifetime. */
  lemma ReceiptIsStamped(rules: Rules, es: seq<Event>, n: nat, r: Receipt) returns (j: nat)
    requires HasReceipt(Run(rules, es), n, r)
    ensures r.id in Run(rules, es).table && Run(rules, es).table[r.id].consumed.Some?
    ensures var row := Run(rules, es).table[r.id];
            ReadsAt(rules, es, j, n, row.consumed.value.at) && 0 < row.consumed.value.at <= row.expiresAt
  {
    var k := WinnerSwapped(rules, es, n, r);
    var i := Run(rules, es[..k]).runs[n].input;
    j := TimedWasRead(rules, es[..k], n, i);
    assert es[..k][..j] == es[..j];
    SwapRecordStays(rules, es, k, n, r);
    ReceiptMatchesRow(rules, es, n, r);
  }

  // ---- Where a receipt comes from ----

  predicate Names(rules: Rules, e: Evidence, id: Text, sequence: SafeInt, evidence: Text) {
    id == e.challengeId && sequence == e.sequence && evidence == rules.digest(e)
  }

  /** The evidence behind a phase. */
  ghost predicate Follows(rules: Rules, p: Phase, e: Evidence) {
    match p
    case Started(f, _) => f == e
    case Loaded(ch, f, now) => f == e && ValidChallenge(rules, ch, e, now)
    case Verified(ch) => Names(rules, e, ch.id, ch.sequence, ch.evidence)
    case Timed(i) => Names(rules, e, i.id, i.sequence, i.evidence)
    case Swapped(i, _) => Names(rules, e, i.id, i.sequence, i.evidence)
    case Returned(r) => Names(rules, e, r.id, r.sequence, r.evidence)
    case Failed => true
  }

  ghost predicate StartsAt(es: seq<Event>, k: nat, n: nat) { k < |es| && es[k].Start? && es[k].run == n }

  lemma StepKeepsEvidence(rules: Rules, s: State, e: Event, n: nat, evidence: Evidence)
    requires n in s.runs && Follows(rules, s.runs[n], evidence)
    ensures n in Step(rules, s, e).runs && Follows(rules, Step(rules, s, e).runs[n], evidence)
  {
  }

  /** Every run, and so every receipt, is for the challenge and the digest of the evidence it was started with. */
  lemma {:induction false} ReceiptIsForItsEvidence(rules: Rules, es: seq<Event>, n: nat) returns (k: nat)
    requires n in Run(rules, es).runs
    ensures StartsAt(es, k, n) && Follows(rules, Run(rules, es).runs[n], es[k].evidence)
    decreases |es|
  {
    var before, e := es[..|es| - 1], es[|es| - 1];
    if n in Run(rules, before).runs {
      k := ReceiptIsForItsEvidence(rules, before, n);
      StepKeepsEvidence(rules, Run(rules, before), e, n, es[k].evidence);
    } else {
      k := |es| - 1;
    }
  }

  /** The receipt that a phase after verification is on its way to. */
  function Target(p: Phase): Option<Receipt> {
    match p
    case Verified(ch) => Some(ReceiptFor(ch))
    case Timed(i) => Some(ReceiptOf(i))
    case Swapped(i, _) => Some(ReceiptOf(i))
    case Returned(r) => Some(r)
    case _ => None
  }

  function ReceiptFor(ch: Challenge): Receipt {
    Receipt(ch.id, ch.sequence, ch.evidence, ch.transcriptRoot, ch.authoritySnapshot)
  }

  /** Event `k` is the verification of run `n`: its evidence passes for the challenge it had loaded. */
  ghost predicate PassesAt(rules: Rules, es: seq<Event>, k: nat, n: nat, p: Phase) {
    && k < |es| && es[k].Verify? && es[k].run == n && p.Loaded?
    && n in Run(rules, es[..k]).runs && Run(rules, es[..k]).runs[n] == p
    && rules.passes(p.challenge, p.now, p.evidence, es[k].view)
  }

  lemma PassesEarlier(rules: Rules, es: seq<Event>, k: nat, n: nat, p: Phase)
    requires es != [] && PassesAt(rules, es[..|es| - 1], k, n, p)
    ensures PassesAt(rules, es, k, n, p)
  {
    assert es[..|es| - 1][..k] == es[..k];
  }

  lemma TargetByLastStep(rules: Rules, s: State, e: Event, n: nat, r: Receipt)
    requires n in Step(rules, s, e).runs && Target(Step(rules, s, e).runs[n]) == Some(r)
    ensures n in s.runs
    ensures Target(s.runs[n]) == Some(r)
      || (&& e.Verify? && e.run == n && s.runs[n].Loaded? && ReceiptFor(s.runs[n].challenge) == r
          && rules.passes(s.runs[n].challenge, s.runs[n].now, s.runs[n].evidence, e.view))
  {
  }

  lemma {:induction false} TargetWasVerified(rules: Rules, es: seq<Event>, n: nat, r: Receipt)
    returns (k: nat, p: Phase)
    requires n in Run(rules, es).runs && Target(Run(rules, es).runs[n]) == Some(r)
    ensures PassesAt(rules, es, k, n, p) && ReceiptFor(p.challenge) == r
    decreases |es|
  {
    var before, e := es[..|es| - 1], es[|es| - 1];
    TargetByLastStep(rules, Run(rules, before), e, n, r);
    if Target(Run(rules, before).runs[n]) == Some(r) {
      k, p := TargetWasVerified(rules, before, n, r);
      PassesEarlier(rules, es, k, n, p);
    } else {
      k, p := |es| - 1, Run(rules, before).runs[n];
    }
  }

  /** Behind each receipt is a verification at which its own evidence passed for its own challenge. */
  lemma ReceiptWasVerified(rules: Rules, es: seq<Event>, n: nat, r: Receipt) returns (k: nat, p: Phase)
    requires HasReceipt(Run(rules, es), n, r)
    ensures PassesAt(rules, es, k, n, p) && ReceiptFor(p.challenge) == r
    ensures ValidChallenge(rules, p.challenge, p.evidence, p.now)
  {
    k, p := TargetWasVerified(rules, es, n, r);
    var j := ReceiptIsForItsEvidence(rules, es[..k], n);
  }

  /** Event `k` starts run `n` with this evidence, at this time. */
  ghost predicate BeginsAt(rules: Rules, es: seq<Event>, k: nat, n: nat, e: Evidence, now: SafeInt) {
    k < |es| && es[k] == Start(n, e) && Run(rules, es[..k]).clock == now
  }

  lemma BeginsEarlier(rules: Rules, es: seq<Event>, k: nat, n: nat, e: Evidence, now: SafeInt)
    requires es != [] && BeginsAt(rules, es[..|es| - 1], k, n, e, now)
    ensures BeginsAt(rules, es, k, n, e, now)
  {
    assert es[..|es| - 1][..k] == es[..k];
  }

  predicate Carries(p: Phase, e: Evidence, now: SafeInt) {
    p == Started(e, now) || (p.Loaded? && p.evidence == e && p.now == now)
  }

  lemma CarriesByLastStep(rules: Rules, s: State, event: Event, n: nat, e: Evidence, now: SafeInt)
    requires n in Step(rules, s, event).runs && Carries(Step(rules, s, event).runs[n], e, now)
    ensures (n in s.runs && Carries(s.runs[n], e, now)) || (event == Start(n, e) && s.clock == now)
  {
  }

  lemma {:induction false} CarriesFromStart(rules: Rules, es: seq<Event>, n: nat, e: Evidence, now: SafeInt)
    returns (k: nat)
    requires n in Run(rules, es).runs && Carries(Run(rules, es).runs[n], e, now)
    ensures BeginsAt(rules, es, k, n, e, now)
    decreases |es|
  {
    var before, event := es[..|es| - 1], es[|es| - 1];
    CarriesByLastStep(rules, Run(rules, before), event, n, e, now);
    if n in Run(rules, before).runs && Carries(Run(rules, before).runs[n], e, now) {
      k := CarriesFromStart(rules, before, n, e, now);
      BeginsEarlier(rules, es, k, n, e, now);
    } else {
      k := |es| - 1;
    }
  }

  /** What was verified for a receipt is the evidence its run started with, at the time the clock showed then. */
  lemma ReceiptBeganWith(rules: Rules, es: seq<Event>, n: nat, r: Receipt) returns (j: nat, k: nat, p: Phase)
    requires HasReceipt(Run(rules, es), n, r)
    ensures PassesAt(rules, es, k, n, p) && ReceiptFor(p.challenge) == r && j < k
    ensures BeginsAt(rules, es, j, n, p.evidence, p.now)
  {
    k, p := ReceiptWasVerified(rules, es, n, r);
    j := CarriesFromStart(rules, es[..k], n, p.evidence, p.now);
    assert es[..k][..j] == es[..j];
  }

  // ---- Every receipt that may be given can be ----

  function RowOf(ch: Challenge): Row {
    Row(ch.sequence, ch.issuedAt, ch.expiresAt, ch.evidence, ch.transcriptRoot, ch.authoritySnapshot, None)
  }

  /** One run by itself, up to the load: clock, authority and challenge are set before it starts. */
  function Opening(ch: Challenge, e: Evidence, now: SafeInt): seq<Event> {
    [] + [SetClock(now)] + [SetAuthority(Some(ch.authoritySnapshot))] + [Issue(ch.id, RowOf(ch))] + [Start(0, e)]
    + [Load(0)]
  }

  function Alone(ch: Challenge, e: Evidence, v: View, now: SafeInt): seq<Event> {
    Opening(ch, e, now) + [Verify(0, v)] + [ReadClock(0)] + [Swap(0)] + [Return(0)]
  }

  function AloneIn(ch: Challenge, now: SafeInt, p: Phase): State {
    State(map[ch.id := RowOf(ch)], Some(ch.authoritySnapshot), now, map[0 := p], map[])
  }

  lemma OpeningLoads(rules: Rules, ch: Challenge, e: Evidence, now: SafeInt)
    requires ValidChallenge(rules, ch, e, now)
    ensures Run(rules, Opening(ch, e, now)) == AloneIn(ch, now, Loaded(ch, e, now))
  {
    var a, b, c := SetClock(now), SetAuthority(Some(ch.authoritySnapshot)), Issue(ch.id, RowOf(ch));
    RunStep(rules, [], a);
    RunStep(rules, [] + [a], b);
    RunStep(rules, [] + [a] + [b], c);
    RunStep(rules, [] + [a] + [b] + [c], Start(0, e));
    RunStep(rules, [] + [a] + [b] + [c] + [Start(0, e)], Load(0));
    assert ChallengeIn(map[ch.id := RowOf(ch)], ch.id) == Some(ch);
  }

  function InputOf(ch: Challenge, now: SafeInt): Consumption {
    Consumption(ch.id, ch.sequence, ch.evidence, ch.transcriptRoot, ch.authoritySnapshot, now, ch.expiresAt)
  }

  lemma VerifiesInTime(rules: Rules, es: seq<Event>, ch: Challenge, e: Evidence, v: View, now: SafeInt)
    requires Run(rules, es) == AloneIn(ch, now, Loaded(ch, e, now))
    requires rules.passes(ch, now, e, v) && 0 < now <= ch.expiresAt
    ensures Run(rules, es + [Verify(0, v)] + [ReadClock(0)]) == AloneIn(ch, now, Timed(InputOf(ch, now)))
  {
    RunStep(rules, es, Verify(0, v));
    RunStep(rules, es + [Verify(0, v)], ReadClock(0));
  }

  lemma SwapsAlone(rules: Rules, es: seq<Event>, ch: Challenge, now: SafeInt)
    requires Run(rules, es) == AloneIn(ch, now, Timed(InputOf(ch, now))) && SoundInput(InputOf(ch, now))
    ensures HasReceipt(Run(rules, es + [Swap(0)] + [Return(0)]), 0, ReceiptFor(ch))
  {
    RunStep(rules, es, Swap(0));
    RunStep(rules, es + [Swap(0)], Return(0));
  }

  /** Evidence that passes for a valid challenge gets the receipt of that challenge in some behaviour. */
  lemma PassingCanHaveReceipt(rules: Rules, ch: Challenge, e: Evidence, v: View, now: SafeInt)
    requires ValidChallenge(rules, ch, e, now) && rules.passes(ch, now, e, v)
    ensures HasReceipt(Run(rules, Alone(ch, e, v, now)), 0, ReceiptFor(ch))
  {
    OpeningLoads(rules, ch, e, now);
    VerifiesInTime(rules, Opening(ch, e, now), ch, e, v, now);
    SwapsAlone(rules, Opening(ch, e, now) + [Verify(0, v)] + [ReadClock(0)], ch, now);
  }

  ghost predicate Gives(rules: Rules, es: seq<Event>, n: nat, r: Receipt) { HasReceipt(Run(rules, es), n, r) }

  ghost predicate MayHave(rules: Rules, r: Receipt, ch: Challenge, e: Evidence, v: View, now: SafeInt) {
    ReceiptFor(ch) == r && ValidChallenge(rules, ch, e, now) && rules.passes(ch, now, e, v)
  }

  /** The receipts that some behaviour gives are exactly those of valid challenges with evidence that passes. */
  lemma ReceiptsExactly(rules: Rules, r: Receipt)
    ensures (exists es: seq<Event>, n: nat :: Gives(rules, es, n, r)) <==>
            (exists ch: Challenge, e: Evidence, v: View, now: SafeInt :: MayHave(rules, r, ch, e, v, now))
  {
    if es: seq<Event>, n: nat :| Gives(rules, es, n, r) {
      var k, p := ReceiptWasVerified(rules, es, n, r);
      assert MayHave(rules, r, p.challenge, p.evidence, es[k].view, p.now);
    }
    if ch: Challenge, e: Evidence, v: View, now: SafeInt :| MayHave(rules, r, ch, e, v, now) {
      PassingCanHaveReceipt(rules, ch, e, v, now);
      assert Gives(rules, Alone(ch, e, v, now), 0, r);
    }
  }

  // ---- The rules of the code ----

  ghost function RulesOf(c: Checks): Rules {
    Rules(e => Digest(c, e), (ch: Challenge, now: SafeInt, e: Evidence, v: View) => Passes(c, ch, now, e, v))
  }

  /**
   * Over every interleaving, behind each receipt are eight transcripts and eight readbacks, complete and confirmed by
   * the authority, shown by evidence with the receipt's digest, and whose own digests are the receipt's.
   */
  lemma ReceiptHasWitnesses(c: Checks, es: seq<Event>, n: nat, r: Receipt)
    returns (k: nat, p: Phase, ps: Probes, rs: Readbacks)
    requires HasReceipt(Run(RulesOf(c), es), n, r)
    ensures PassesAt(RulesOf(c), es, k, n, p) && ReceiptFor(p.challenge) == r && r.evidence == Digest(c, p.evidence)
    ensures var v := es[k].view;
            var ctx := ContextOf(p.challenge, p.now, p.evidence, v);
            && Shows(c, ctx, p.evidence, ps, rs) && Acceptable(c, ctx, v.authority, ps, rs)
            && Settled(ctx, ps, rs) && KeysHold(ctx, ps, rs)
    ensures forall i :: 0 <= i < |p.evidence.probes| ==> p.evidence.probes[i].producerId == ps[0].producer
    ensures forall i :: 0 <= i < |p.evidence.readbacks| ==> p.evidence.readbacks[i].producerId == rs[0].producer
  {
    k, p := ReceiptWasVerified(RulesOf(c), es, n, r);
    ps, rs := PassingShowsWitnesses(c, p.challenge, p.now, p.evidence, es[k].view);
  }
}
