/** Whole-run accounting for one-time prekeys and signed prekeys. */
module PrekeyRuns {
  import opened Wrappers
  import opened KeyserverCodec
  import opened KeyDatabase

  datatype Op =
    | Register(u: Str, identity: Identity, time: Str)
    | Replenish(u: Str, spk: Option<Spk>, opks: seq<Opk>)
    | Pop(u: Str)
    | Insert(id: Str, row: Row)
    | Fetch(id: Str, now: int)
    | Burn(u: Str, scope: Scope)

  ghost function Apply(db: Db, op: Op): Db {
    match op
    case Register(u, identity, time) => db.(users := AfterRegister(db.users, u, identity, time))
    case Replenish(u, spk, opks) => AfterUpsert(db, u, spk, opks)
    case Pop(u) => AfterPop(db, u)
    case Insert(id, row) => db.(wrapped := if id in db.wrapped then db.wrapped else db.wrapped[id := row])
    case Fetch(id, now) => db.(wrapped := AfterFetch(db.wrapped, id, now))
    case Burn(u, scope) => db.(wrapped := db.wrapped - Matched(db.wrapped, u, scope))
  }

  ghost function Run(db: Db, ops: seq<Op>): Db {
    if ops == [] then db else Apply(Run(db, ops[..|ops| - 1]), ops[|ops| - 1])
  }

  function PoolOf(db: Db, u: Str): Pool { PoolIn(db.pools, u) }

  // ---- What a run accepted and handed out for one user ----

  ghost function AcceptedBy(db: Db, op: Op, u: Str): seq<Opk> {
    if op.Replenish? && op.u == u && UpsertOutcome(db, u, op.spk, op.opks) == Stored then op.opks else []
  }

  ghost function HandedBy(db: Db, op: Op, u: Str): seq<Opk> {
    if op.Pop? && op.u == u && PopReply(db, u).Some? && PopReply(db, u).value.opk.Some?
    then [PopReply(db, u).value.opk.value] else []
  }

  ghost function SpksBy(db: Db, op: Op, u: Str): seq<Spk> {
    if op.Replenish? && op.u == u && op.spk.Some? && UpsertOutcome(db, u, op.spk, op.opks) == Stored
    then [op.spk.value] else []
  }

  ghost function Accepted(db: Db, ops: seq<Op>, u: Str): seq<Opk> {
    if ops == [] then []
    else var p := ops[..|ops| - 1]; Accepted(db, p, u) + AcceptedBy(Run(db, p), ops[|ops| - 1], u)
  }

  ghost function Handed(db: Db, ops: seq<Op>, u: Str): seq<Opk> {
    if ops == [] then []
    else var p := ops[..|ops| - 1]; Handed(db, p, u) + HandedBy(Run(db, p), ops[|ops| - 1], u)
  }

  ghost function Spks(db: Db, ops: seq<Op>, u: Str): seq<Spk> {
    if ops == [] then []
    else var p := ops[..|ops| - 1]; Spks(db, p, u) + SpksBy(Run(db, p), ops[|ops| - 1], u)
  }

  // ---- Conservation ----

  /** How often the pool holds `o`: once or not at all. */
  ghost function Held(pool: Pool, o: Opk): nat {
    if o.id in pool && pool[o.id] == o.pub then 1 else 0
  }

  ghost function Count(s: seq<Opk>, o: Opk): nat {
    multiset(s)[o]
  }

  lemma CountConcat(a: seq<Opk>, b: seq<Opk>, o: Opk)
    ensures Count(a + b, o) == Count(a, o) + Count(b, o)
  {
  }

  lemma CountOne(x: Opk, o: Opk)
    ensures Count([x], o) == if o == x then 1 else 0
  {
  }

  lemma HeldAddOne(pool: Pool, x: Opk, o: Opk)
    requires x.id !in pool
    ensures Held(pool[x.id := x.pub], o) == Held(pool, o) + Count([x], o)
  {
    CountOne(x, o);
  }

  lemma HeldRemoveOne(pool: Pool, k: int, o: Opk)
    requires k in pool
    ensures Held(pool, o) == Count([Opk(k, pool[k])], o) + Held(pool - {k}, o)
  {
    CountOne(Opk(k, pool[k]), o);
  }

  lemma FitsPrefix(pool: Pool, opks: seq<Opk>)
    requires opks != [] && Fits(pool, opks)
    ensures Fits(pool, opks[..|opks| - 1]) && opks[|opks| - 1].id !in AddOpks(pool, opks[..|opks| - 1])
  {
    AddedIds(pool, opks[..|opks| - 1]);
  }

  lemma {:induction false} HeldAdded(pool: Pool, opks: seq<Opk>, o: Opk)
    requires Fits(pool, opks)
    ensures Held(AddOpks(pool, opks), o) == Held(pool, o) + Count(opks, o)
    decreases |opks|
  {
    if opks != [] {
      var p, x := opks[..|opks| - 1], opks[|opks| - 1];
      FitsPrefix(pool, opks);
      HeldAdded(pool, p, o);
      HeldAddOne(AddOpks(pool, p), x, o);
      CountConcat(p, [x], o);
      assert opks == p + [x];
    }
  }

  lemma OthersUntouched(db: Db, op: Op, u: Str)
    requires !(op.Replenish? && op.u == u) && !(op.Pop? && op.u == u)
    ensures PoolOf(Apply(db, op), u) == PoolOf(db, u)
    ensures AcceptedBy(db, op, u) == [] && HandedBy(db, op, u) == []
  {
  }

  lemma StepConserves(db: Db, op: Op, u: Str, o: Opk)
    ensures Held(PoolOf(db, u), o) + Count(AcceptedBy(db, op, u), o)
         == Count(HandedBy(db, op, u), o) + Held(PoolOf(Apply(db, op), u), o)
  {
    var pool := PoolOf(db, u);
    if op.Replenish? && op.u == u {
      if UpsertOutcome(db, u, op.spk, op.opks) == Stored {
        HeldAdded(pool, op.opks, o);
      }
    } else if op.Pop? && op.u == u {
      if HasBundle(db, u) && pool != map[] {
        HeldRemoveOne(pool, Least(pool), o);
      }
    } else {
      OthersUntouched(db, op, u);
    }
  }

  /** For each user and each one-time prekey: pooled before and ever accepted equals handed out and still pooled. */
  lemma {:induction false} OpksAreConserved(db: Db, ops: seq<Op>, u: Str, o: Opk)
    ensures Held(PoolOf(db, u), o) + Count(Accepted(db, ops, u), o)
         == Count(Handed(db, ops, u), o) + Held(PoolOf(Run(db, ops), u), o)
    decreases |ops|
  {
    if ops != [] {
      var p, op := ops[..|ops| - 1], ops[|ops| - 1];
      var mid := Run(db, p);
      OpksAreConserved(db, p, u, o);
      StepConserves(mid, op, u, o);
      CountConcat(Accepted(db, p, u), AcceptedBy(mid, op, u), o);
      CountConcat(Handed(db, p, u), HandedBy(mid, op, u), o);
    }
  }

  /** From empty tables, each prekey was accepted exactly as often as it was handed out or is pooled. */
  lemma EveryOpkIsAccountedFor(ops: seq<Op>, u: Str)
    ensures forall o :: multiset(Accepted(EMPTY, ops, u))[o]
                     == multiset(Handed(EMPTY, ops, u))[o] + Held(PoolOf(Run(EMPTY, ops), u), o)
  {
    forall o ensures multiset(Accepted(EMPTY, ops, u))[o]
                  == multiset(Handed(EMPTY, ops, u))[o] + Held(PoolOf(Run(EMPTY, ops), u), o)
    {
      OpksAreConserved(EMPTY, ops, u, o);
    }
  }

  // ---- Order ----

  /** The pool listed by ascending id. */
  ghost predicate Lists(s: seq<Opk>, pool: Pool) {
    && (forall i, j :: 0 <= i < j < |s| ==> s[i].id < s[j].id)
    && (forall i :: 0 <= i < |s| ==> s[i].id in pool && pool[s[i].id] == s[i].pub)
    && (forall k :: k in pool ==> exists i :: 0 <= i < |s| && s[i].id == k)
  }

  lemma ListFinds(pool: Pool, k: int, rest: seq<Opk>, s: seq<Opk>, j: int)
    requires k in pool && Lists(rest, pool - {k}) && s == [Opk(k, pool[k])] + rest && j in pool
    ensures exists i :: 0 <= i < |s| && s[i].id == j
  {
    if j == k {
      assert s[0].id == j;
    } else {
      assert j in pool - {k};
      var i :| 0 <= i < |rest| && rest[i].id == j;
      assert s[i + 1].id == j;
    }
  }

  lemma ListCons(pool: Pool, k: int, rest: seq<Opk>)
    requires IsLeast(k, pool) && Lists(rest, pool - {k})
    ensures Lists([Opk(k, pool[k])] + rest, pool)
  {
    var s := [Opk(k, pool[k])] + rest;
    forall j | j in pool ensures exists i :: 0 <= i < |s| && s[i].id == j {
      ListFinds(pool, k, rest, s, j);
    }
    forall i | 0 <= i < |s| ensures s[i].id in pool && pool[s[i].id] == s[i].pub && (i > 0 ==> k < s[i].id) {
      if i > 0 {
        assert s[i] == rest[i - 1] && rest[i - 1].id in pool - {k};
      }
    }
  }

  /** Every pool can be listed. */
  lemma {:induction false} ListExists(pool: Pool) returns (s: seq<Opk>)
    ensures Lists(s, pool)
    decreases |pool|
  {
    if pool == map[] {
      s := [];
    } else {
      var k := Least(pool);
      RemoveOne(pool, k);
      var rest := ListExists(pool - {k});
      s := [Opk(k, pool[k])] + rest;
      ListCons(pool, k, rest);
    }
  }

  lemma ListHead(s: seq<Opk>, pool: Pool)
    requires Lists(s, pool) && pool != map[]
    ensures s != [] && s[0] == Opk(Least(pool), pool[Least(pool)]) && Lists(s[1..], pool - {Least(pool)})
  {
    var k := Least(pool);
    var i :| 0 <= i < |s| && s[i].id == k;
    assert s[0].id in pool;
    var rest, left := s[1..], pool - {k};
    forall j | j in left ensures exists p :: 0 <= p < |rest| && rest[p].id == j {
      var p :| 0 <= p < |s| && s[p].id == j;
      assert rest[p - 1].id == j;
    }
  }

  lemma ListEmpty(s: seq<Opk>, pool: Pool)
    requires Lists(s, pool)
    ensures pool == map[] ==> s == []
  {
    if s != [] {
      assert s[0].id in pool;
    }
  }

  lemma {:induction false} ListLength(s: seq<Opk>, pool: Pool)
    requires Lists(s, pool)
    ensures |s| == |pool|
    decreases |pool|
  {
    if pool == map[] {
      ListEmpty(s, pool);
    } else {
      ListHead(s, pool);
      RemoveOne(pool, Least(pool));
      ListLength(s[1..], pool - {Least(pool)});
    }
  }

  ghost predicate NoReplenish(ops: seq<Op>, u: Str) {
    forall i :: 0 <= i < |ops| ==> !(ops[i].Replenish? && ops[i].u == u)
  }

  lemma PopStep(db: Db, u: Str)
    ensures var pool := PoolOf(db, u);
            if HasBundle(db, u) && pool != map[] then
              && HandedBy(db, Pop(u), u) == [Opk(Least(pool), pool[Least(pool)])]
              && PoolOf(Apply(db, Pop(u)), u) == pool - {Least(pool)}
            else HandedBy(db, Pop(u), u) == [] && PoolOf(Apply(db, Pop(u)), u) == pool
  {
  }

  /** `given` is the front of the listed prekeys and the pool is what is left of them. */
  ghost predicate Given(s: seq<Opk>, given: seq<Opk>, pool: Pool) {
    |given| <= |s| && given == s[..|given|] && Lists(s[|given|..], pool)
  }

  lemma StepAscends(db: Db, op: Op, u: Str, t: seq<Opk>)
    requires Lists(t, PoolOf(db, u)) && !(op.Replenish? && op.u == u)
    ensures Given(t, HandedBy(db, op, u), PoolOf(Apply(db, op), u))
  {
    assert t[0..] == t && t[..0] == [];
    if op.Pop? && op.u == u {
      PopStep(db, u);
      if HasBundle(db, u) && PoolOf(db, u) != map[] {
        ListHead(t, PoolOf(db, u));
      }
    } else {
      OthersUntouched(db, op, u);
    }
  }

  lemma GivenMore(s: seq<Opk>, a: seq<Opk>, b: seq<Opk>, mid: Pool, pool: Pool)
    requires Given(s, a, mid) && Given(s[|a|..], b, pool)
    ensures Given(s, a + b, pool)
  {
    Advance(s, |a|, |b|);
  }

  lemma Advance(s: seq<Opk>, h: nat, g: nat)
    requires h + g <= |s|
    ensures s[..h] + s[h..][..g] == s[..h + g] && s[h..][g..] == s[h + g..]
  {
  }

  /** Between replenishes, the hand-outs are the pool in ascending id order, however other requests interleave. */
  lemma {:induction false} PopsAscend(db: Db, ops: seq<Op>, u: Str, s: seq<Opk>)
    requires Lists(s, PoolOf(db, u)) && NoReplenish(ops, u)
    ensures Given(s, Handed(db, ops, u), PoolOf(Run(db, ops), u))
    decreases |ops|
  {
    if ops == [] {
      assert s[0..] == s;
    } else {
      var p, op := ops[..|ops| - 1], ops[|ops| - 1];
      PopsAscend(db, p, u, s);
      var mid, h := Run(db, p), Handed(db, p, u);
      StepAscends(mid, op, u, s[|h|..]);
      GivenMore(s, h, HandedBy(mid, op, u), PoolOf(mid, u), PoolOf(Apply(mid, op), u));
    }
  }

  /** A reply carries the size the pool has after it, and no one-time prekey exactly when the pool was empty. */
  lemma PopReplyCounts(db: Db, u: Str)
    requires PopReply(db, u).Some?
    ensures PopReply(db, u).value.remaining == |PoolOf(AfterPop(db, u), u)|
    ensures PopReply(db, u).value.opk.None? <==> PoolOf(db, u) == map[]
  {
    var pool := PoolOf(db, u);
    if pool != map[] {
      RemoveOne(pool, Least(pool));
    }
  }

  /** The reply to the next pop, when the hand-outs so far have taken `h` of the listed prekeys. */
  lemma NextPop(db: Db, ops: seq<Op>, u: Str, s: seq<Opk>)
    requires Lists(s, PoolOf(db, u)) && NoReplenish(ops, u) && HasBundle(Run(db, ops), u)
    ensures var h, r := |Handed(db, ops, u)|, PopReply(Run(db, ops), u);
            r.Some? && if h < |s| then r.value.opk == Some(s[h]) && r.value.remaining == |s| - h - 1
                       else r.value.opk == None && r.value.remaining == 0
  {
    PopsAscend(db, ops, u, s);
    var mid, h := Run(db, ops), |Handed(db, ops, u)|;
    var pool := PoolOf(mid, u);
    ListLength(s[h..], pool);
    if pool != map[] {
      ListHead(s[h..], pool);
      assert s[h..][0] == s[h];
    } else {
      ListEmpty(s[h..], pool);
    }
  }

  lemma NoBundleStep(db: Db, op: Op, u: Str)
    requires u !in Apply(db, op).bundles
    ensures u !in db.bundles && HandedBy(db, op, u) == []
  {
  }

  /** A user who never uploaded a signed prekey has lost no one-time prekey. */
  lemma {:induction false} NoBundleNoLoss(db: Db, ops: seq<Op>, u: Str)
    requires u !in Run(db, ops).bundles
    ensures u !in db.bundles && Handed(db, ops, u) == []
    decreases |ops|
  {
    if ops != [] {
      var n := |ops| - 1;
      NoBundleStep(Run(db, ops[..n]), ops[n], u);
      NoBundleNoLoss(db, ops[..n], u);
    }
  }

  // ---- Signed prekeys ----

  ghost predicate HoldsLastTwo(bundles: map<Str, Bundle>, u: Str, h: seq<Spk>) {
    && (u in bundles <==> h != [])
    && (h != [] ==> bundles[u] == Bundle(h[|h| - 1], if |h| >= 2 then Some(h[|h| - 2]) else None))
  }

  /** A bundle is exactly the last two signed prekeys accepted for its user, in order. */
  lemma {:induction false} BundleIsLastTwo(ops: seq<Op>, u: Str)
    ensures HoldsLastTwo(Run(EMPTY, ops).bundles, u, Spks(EMPTY, ops, u))
    decreases |ops|
  {
    if ops != [] {
      BundleIsLastTwo(ops[..|ops| - 1], u);
    }
  }

  // ---- Identities ----

  datatype Registration = Registration(identity: Identity, time: Str)

  /** The registrations of one user, in order. */
  function Registrations(ops: seq<Op>, u: Str): seq<Registration> {
    if ops == [] then []
    else
      var op := ops[|ops| - 1];
      Registrations(ops[..|ops| - 1], u)
      + if op.Register? && op.u == u then [Registration(op.identity, op.time)] else []
  }

  /** The identity of the last registration, first stored at the first, and rotated at the last if there were more. */
  ghost predicate HoldsLastIdentity(users: map<Str, User>, u: Str, h: seq<Registration>) {
    && (u in users <==> h != [])
    && (h != [] ==>
          && users[u].identity == h[|h| - 1].identity && users[u].registeredAt == h[0].time
          && users[u].lastRotatedAt == if |h| >= 2 then Some(h[|h| - 1].time) else None)
  }

  lemma {:induction false} UserIsLastRegistered(ops: seq<Op>, u: Str)
    ensures HoldsLastIdentity(Run(EMPTY, ops).users, u, Registrations(ops, u))
    decreases |ops|
  {
    if ops != [] {
      UserIsLastRegistered(ops[..|ops| - 1], u);
    }
  }

  /** A reply to those with a signed prekey, with the last identity and the last signed prekey. */
  predicate IsLatest(r: Option<Handout>, h: seq<Registration>, spks: seq<Spk>) {
    && (r.Some? <==> spks != [])
    && (r.Some? ==> h != [] && r.value.identity == h[|h| - 1].identity && r.value.spk == spks[|spks| - 1])
  }

  lemma LatestIsGiven(db: Db, u: Str, h: seq<Registration>, spks: seq<Spk>)
    requires HoldsLastIdentity(db.users, u, h) && HoldsLastTwo(db.bundles, u, spks) && NoOrphans(db)
    ensures IsLatest(PopReply(db, u), h, spks)
  {
  }

  /** In every run a reply carries the last identity registered and the last signed prekey accepted for its user. */
  lemma PopGivesTheLatest(ops: seq<Op>, u: Str)
    ensures IsLatest(PopReply(Run(EMPTY, ops), u), Registrations(ops, u), Spks(EMPTY, ops, u))
  {
    UserIsLastRegistered(ops, u);
    BundleIsLastTwo(ops, u);
    ForeignKeysHold(ops);
    LatestIsGiven(Run(EMPTY, ops), u, Registrations(ops, u), Spks(EMPTY, ops, u));
  }

  /** Every pooled or bundled key belongs to a registered user. */
  ghost predicate NoOrphans(db: Db) {
    && (forall u :: u in db.bundles ==> u in db.users)
    && (forall u :: u in db.pools && db.pools[u] != map[] ==> u in db.users)
  }

  lemma {:induction false} ForeignKeysHold(ops: seq<Op>)
    ensures NoOrphans(Run(EMPTY, ops))
    decreases |ops|
  {
    if ops != [] {
      var n := |ops| - 1;
      ForeignKeysHold(ops[..n]);
      StepKeepsForeignKeys(Run(EMPTY, ops[..n]), ops[n]);
    }
  }

  lemma StepKeepsForeignKeys(db: Db, op: Op)
    requires NoOrphans(db)
    ensures NoOrphans(Apply(db, op))
  {
  }

  /** On reachable tables a replenish of a registered user fails only over its ids, and then nothing changes. */
  lemma ReplenishIsAllOrNothing(ops: seq<Op>, u: Str, spk: Option<Spk>, opks: seq<Opk>)
    requires u in Run(EMPTY, ops).users
    ensures var db := Run(EMPTY, ops);
            && (UpsertOutcome(db, u, spk, opks) == Stored <==> Fits(PoolOf(db, u), opks))
            && (!Fits(PoolOf(db, u), opks) ==> Run(EMPTY, ops + [Replenish(u, spk, opks)]) == db)
            && (Fits(PoolOf(db, u), opks) ==> forall o ::
                  Held(PoolOf(Run(EMPTY, ops + [Replenish(u, spk, opks)]), u), o)
                  == Held(PoolOf(db, u), o) + Count(opks, o))
  {
    var db, op := Run(EMPTY, ops), Replenish(u, spk, opks);
    assert (ops + [op])[..|ops|] == ops;
    if Fits(PoolOf(db, u), opks) {
      forall o ensures Held(AddOpks(PoolOf(db, u), opks), o) == Held(PoolOf(db, u), o) + Count(opks, o) {
        HeldAdded(PoolOf(db, u), opks, o);
      }
    }
  }
}

/** Whole-run accounting for wrapped keys: what becomes of each insertion. */
module WrappedRuns {
  import opened KeyserverCodec
  import opened KeyDatabase

  /** Requests to the wrapped-key table; every fetch reads its own clock. */
  datatype Op = Insert(id: Str, row: Row) | Fetch(id: Str, now: int) | Burn(u: Str, scope: Scope)

  function Apply(wrapped: map<Str, Row>, op: Op): map<Str, Row> {
    match op
    case Insert(id, row) => if id in wrapped then wrapped else wrapped[id := row]
    case Fetch(id, now) => AfterFetch(wrapped, id, now)
    case Burn(u, scope) => wrapped - Matched(wrapped, u, scope)
  }

  /** The table after a run from empty. */
  function Table(ops: seq<Op>): map<Str, Row> {
    if ops == [] then map[] else Apply(Table(ops[..|ops| - 1]), ops[|ops| - 1])
  }

  /** For each stored content id, the position of the request that inserted its row. */
  function Origin(ops: seq<Op>): map<Str, nat> {
    if ops == [] then map[]
    else
      var p, op := ops[..|ops| - 1], ops[|ops| - 1];
      var before := if op.Insert? && op.id !in Table(p) then Origin(p)[op.id := |p|] else Origin(p);
      map id | id in before && id in Table(ops) :: before[id]
  }

  /** The request at position `t` was an insertion that the table accepted. */
  predicate Accepted(ops: seq<Op>, t: nat) {
    t < |ops| && ops[t].Insert? && ops[t].id !in Table(ops[..t])
  }

  /** The row that request `t` inserted is still stored. */
  predicate Live(ops: seq<Op>, t: nat) {
    t < |ops| && ops[t].Insert? && ops[t].id in Origin(ops) && Origin(ops)[ops[t].id] == t
  }

  /** The next request delivers the row of request `t`. */
  predicate Delivers(p: seq<Op>, op: Op, t: nat) {
    Live(p, t) && op.Fetch? && op.id == p[t].id && FetchReply(Table(p), op.id, op.now).Found?
  }

  predicate Tombstones(p: seq<Op>, op: Op, t: nat) {
    Live(p, t) && op.Fetch? && op.id == p[t].id && FetchReply(Table(p), op.id, op.now).Gone?
  }

  predicate BurnsRow(p: seq<Op>, op: Op, t: nat) {
    Live(p, t) && op.Burn? && p[t].id in Matched(Table(p), op.u, op.scope)
  }

  function One(b: bool): nat { if b then 1 else 0 }

  function Deliveries(ops: seq<Op>, t: nat): nat {
    if ops == [] then 0
    else var p := ops[..|ops| - 1]; Deliveries(p, t) + One(Delivers(p, ops[|ops| - 1], t))
  }

  function Tombstonings(ops: seq<Op>, t: nat): nat {
    if ops == [] then 0
    else var p := ops[..|ops| - 1]; Tombstonings(p, t) + One(Tombstones(p, ops[|ops| - 1], t))
  }

  function Burnings(ops: seq<Op>, t: nat): nat {
    if ops == [] then 0
    else var p := ops[..|ops| - 1]; Burnings(p, t) + One(BurnsRow(p, ops[|ops| - 1], t))
  }

  /** Every stored row is the row of the insertion it originates from. */
  ghost predicate Traced(ops: seq<Op>) {
    && Origin(ops).Keys == Table(ops).Keys
    && forall id :: id in Table(ops) ==> Origin(ops)[id] < |ops| && ops[Origin(ops)[id]] == Insert(id, Table(ops)[id])
  }

  lemma {:induction false} RowsAreTraced(ops: seq<Op>)
    ensures Traced(ops)
    decreases |ops|
  {
    if ops != [] {
      var p, op := ops[..|ops| - 1], ops[|ops| - 1];
      RowsAreTraced(p);
      assert forall k :: 0 <= k < |p| ==> p[k] == ops[k];
    }
  }

  lemma {:induction false} NotYet(ops: seq<Op>, t: nat)
    requires |ops| <= t
    ensures Deliveries(ops, t) == 0 && Tombstonings(ops, t) == 0 && Burnings(ops, t) == 0
    decreases |ops|
  {
    if ops != [] {
      NotYet(ops[..|ops| - 1], t);
    }
  }

  /** One request leaves the row stored, or removes it for one reason. */
  lemma StepAccounts(p: seq<Op>, op: Op, t: nat)
    requires t < |p|
    ensures Live(p, t) && p[t].row.singleUse ==>
      One(Live(p + [op], t)) + One(Delivers(p, op, t)) + One(Tombstones(p, op, t)) + One(BurnsRow(p, op, t)) == 1
    ensures Live(p, t) && !p[t].row.singleUse ==>
      One(Live(p + [op], t)) + One(Tombstones(p, op, t)) + One(BurnsRow(p, op, t)) == 1
    ensures !Live(p, t) ==> !Live(p + [op], t)
  {
    var ops := p + [op];
    assert ops[..|p|] == p && ops[|p|] == op && ops[t] == p[t];
    RowsAreTraced(p);
  }

  lemma FreshlyStored(ops: seq<Op>)
    requires ops != [] && Accepted(ops, |ops| - 1)
    ensures Live(ops, |ops| - 1)
  {
  }

  /**
   Each accepted insertion of a single-use row is, at every moment of every run, exactly one
   of: stored, delivered once, tombstoned once, burned once. Other rows are never used up
   by deliveries.
   */
  lemma {:induction false} EveryInsertionHasOneFate(ops: seq<Op>, t: nat)
    requires Accepted(ops, t)
    ensures ops[t].row.singleUse ==>
      One(Live(ops, t)) + Deliveries(ops, t) + Tombstonings(ops, t) + Burnings(ops, t) == 1
    ensures !ops[t].row.singleUse ==>
      One(Live(ops, t)) + Tombstonings(ops, t) + Burnings(ops, t) == 1
    decreases |ops|
  {
    var p, op := ops[..|ops| - 1], ops[|ops| - 1];
    assert ops == p + [op];
    if t == |p| {
      NotYet(p, t);
      FreshlyStored(ops);
    } else {
      assert p[..t] == ops[..t] && p[t] == ops[t];
      EveryInsertionHasOneFate(p, t);
      StepAccounts(p, op, t);
    }
  }

  /** Deliveries are exactly the fetches before expiry, and hand over the inserted row; burns are the sender's own. */
  lemma FatesAreDeserved(p: seq<Op>, op: Op, t: nat)
    ensures Delivers(p, op, t) ==> FetchReply(Table(p), op.id, op.now) == Found(p[t].row)
    ensures Delivers(p, op, t) <==>
            && Live(p, t) && op.Fetch? && op.id == p[t].id
            && (p[t].row.expiresAt.None? || op.now < p[t].row.expiresAt.value)
    ensures Tombstones(p, op, t) <==>
            && Live(p, t) && op.Fetch? && op.id == p[t].id
            && p[t].row.expiresAt.Some? && p[t].row.expiresAt.value <= op.now
    ensures BurnsRow(p, op, t) <==>
            && Live(p, t) && op.Burn? && p[t].row.sender == op.u
            && (op.scope.Single? ==> p[t].id == op.scope.contentId)
            && (op.scope.ToUser? ==> p[t].row.recipient == op.scope.userId)
  {
    RowsAreTraced(p);
  }

  /** The next request delivers, tombstones or burns the row of request `t`. */
  predicate Takes(p: seq<Op>, op: Op, t: nat) { Delivers(p, op, t) || Tombstones(p, op, t) || BurnsRow(p, op, t) }

  /** The request delivers, tombstones or burns the row stored under this id. */
  predicate Touches(wrapped: map<Str, Row>, op: Op, id: Str) {
    id in wrapped && ((op.Fetch? && op.id == id) || (op.Burn? && Burns(id, wrapped[id], op.u, op.scope)))
  }

  /** Every delivery, tombstone or burn concerns the row of exactly one accepted insertion. */
  lemma EveryTakingIsAttributed(p: seq<Op>, op: Op, id: Str) returns (t: nat)
    requires Touches(Table(p), op, id)
    ensures Accepted(p, t) && p[t].id == id && Takes(p, op, t)
    ensures forall u: nat :: Takes(p, op, u) && p[u].id == id ==> u == t
  {
    RowsAreTraced(p);
    t := Origin(p)[id];
    OriginsAreAccepted(p, id);
    assert Live(p, t);
  }

  /** And nothing else is taken: each taking touches a stored row. */
  lemma TakingsTouch(p: seq<Op>, op: Op, t: nat)
    requires Takes(p, op, t)
    ensures Accepted(p, t) && Touches(Table(p), op, p[t].id) && Table(p)[p[t].id] == p[t].row
  {
    RowsAreTraced(p);
    OriginsAreAccepted(p, p[t].id);
  }

  lemma {:induction false} OriginsAreAccepted(ops: seq<Op>, id: Str)
    requires id in Origin(ops)
    ensures Accepted(ops, Origin(ops)[id])
    decreases |ops|
  {
    var p, op := ops[..|ops| - 1], ops[|ops| - 1];
    RowsAreTraced(ops);
    RowsAreTraced(p);
    var t := Origin(ops)[id];
    if t < |p| {
      OriginsAreAccepted(p, id);
      assert p[..t] == ops[..t];
    }
  }

  // ---- Burning by recipient ----

  /** Burns to each recipient in turn, with the sum of the counts. */
  function BurnEach(wrapped: map<Str, Row>, u: Str, recipients: seq<Str>): (map<Str, Row>, nat) {
    if recipients == [] then (wrapped, 0)
    else
      var doomed := Matched(wrapped, u, ToUser(recipients[0]));
      var rest := BurnEach(wrapped - doomed, u, recipients[1..]);
      (rest.0, |doomed| + rest.1)
  }

  lemma BurnSplits(wrapped: map<Str, Row>, u: Str, r: Str)
    ensures var doomed := Matched(wrapped, u, ToUser(r));
            && wrapped - Matched(wrapped, u, All) == (wrapped - doomed) - Matched(wrapped - doomed, u, All)
            && |Matched(wrapped, u, All)| == |doomed| + |Matched(wrapped - doomed, u, All)|
  {
    var doomed := Matched(wrapped, u, ToUser(r));
    var later := Matched(wrapped - doomed, u, All);
    assert Matched(wrapped, u, All) == doomed + later;
    assert doomed !! later;
  }

  /** Burning to every recipient, in any order and with repetitions, is burning everything, and deletes as many rows. */
  lemma {:induction false} BurnEachIsBurnAll(wrapped: map<Str, Row>, u: Str, recipients: seq<Str>)
    requires forall id :: id in wrapped && wrapped[id].sender == u ==> wrapped[id].recipient in recipients
    ensures BurnEach(wrapped, u, recipients) == (wrapped - Matched(wrapped, u, All), |Matched(wrapped, u, All)|)
    decreases |recipients|
  {
    if recipients == [] {
      assert Matched(wrapped, u, All) == {};
      assert wrapped - {} == wrapped;
    } else {
      var r := recipients[0];
      var left := wrapped - Matched(wrapped, u, ToUser(r));
      BurnSplits(wrapped, u, r);
      forall id | id in left && left[id].sender == u ensures left[id].recipient in recipients[1..] {
        assert left[id].recipient in recipients && left[id].recipient != r;
      }
      BurnEachIsBurnAll(left, u, recipients[1..]);
    }
  }
}
