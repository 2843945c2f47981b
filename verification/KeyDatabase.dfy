/** The key server's tables and the transactions over them. */
module KeyDatabase {
  import opened Wrappers
  import opened KeyserverCodec

  datatype Identity = Identity(x25519: Str, ed25519: Str, mlkem768: Str, signature: Str, ratchet: Option<Str>)
  datatype User = User(identity: Identity, registeredAt: Str, lastRotatedAt: Option<Str>)

  datatype Bundle = Bundle(spk: Spk, prev: Option<Spk>)

  /** The one-time prekeys of one user, by id. */
  type Pool = map<int, Str>

  /** A wrapped key; `expiresAt` is the parsed time, absent when the text is no time, and `rest` the other columns. */
  datatype Row = Row(sender: Str, recipient: Str, singleUse: bool, expiresAt: Option<int>, rest: Str)

  datatype Db = Db(
    users: map<Str, User>,
    bundles: map<Str, Bundle>,
    pools: map<Str, Pool>,
    wrapped: map<Str, Row>)

  const EMPTY := Db(map[], map[], map[], map[])

  function PoolIn(pools: map<Str, Pool>, u: Str): Pool {
    if u in pools then pools[u] else map[]
  }

  // ---- What each transaction does ----

  datatype Upsert = Stored | PrimaryKeyTaken | NoSuchUser

  /** The ids are pairwise distinct and none is in the pool. */
  ghost predicate Fits(pool: Pool, opks: seq<Opk>) {
    && (forall i, j :: 0 <= i < j < |opks| ==> opks[i].id != opks[j].id)
    && (forall i :: 0 <= i < |opks| ==> opks[i].id !in pool)
  }

  function AddOpks(pool: Pool, opks: seq<Opk>): Pool {
    if opks == [] then pool
    else AddOpks(pool, opks[..|opks| - 1])[opks[|opks| - 1].id := opks[|opks| - 1].pub]
  }

  function Rotate(bundles: map<Str, Bundle>, u: Str, spk: Spk): map<Str, Bundle> {
    bundles[u := if u in bundles then Bundle(spk, Some(bundles[u].spk)) else Bundle(spk, None)]
  }

  /** The foreign key of a fresh bundle, or of a one-time prekey, has no user. */
  predicate Orphans(db: Db, u: Str, spk: Option<Spk>, opks: seq<Opk>) {
    u !in db.users && ((spk.Some? && u !in db.bundles) || opks != [])
  }

  ghost function UpsertOutcome(db: Db, u: Str, spk: Option<Spk>, opks: seq<Opk>): Upsert {
    if Orphans(db, u, spk, opks) then NoSuchUser
    else if !Fits(PoolIn(db.pools, u), opks) then PrimaryKeyTaken
    else Stored
  }

  ghost function AfterUpsert(db: Db, u: Str, spk: Option<Spk>, opks: seq<Opk>): Db {
    if UpsertOutcome(db, u, spk, opks) != Stored then db
    else
      db.(bundles := if spk.Some? then Rotate(db.bundles, u, spk.value) else db.bundles,
          pools := db.pools[u := AddOpks(PoolIn(db.pools, u), opks)])
  }

  datatype Handout = Handout(identity: Identity, spk: Spk, opk: Option<Opk>, remaining: nat)

  predicate IsLeast(k: int, pool: Pool) {
    k in pool && forall j :: j in pool ==> k <= j
  }

  lemma SomeMember<T>(ids: set<T>) returns (k: T)
    requires ids != {}
    ensures k in ids
  {
    k :| k in ids;
  }

  lemma LeastExists(pool: Pool) returns (k: int)
    requires pool != map[]
    ensures IsLeast(k, pool)
    decreases |pool|
  {
    assert pool.Keys == {} ==> pool == map[];
    k := SomeMember(pool.Keys);
    var rest := pool - {k};
    RemoveOne(pool, k);
    if rest != map[] {
      var m := LeastExists(rest);
      assert forall j :: j in pool ==> j == k || j in rest;
      if m < k { k := m; }
    }
  }

  ghost function Least(pool: Pool): (k: int)
    requires pool != map[]
    ensures IsLeast(k, pool)
  {
    assert exists k :: IsLeast(k, pool) by { var k := LeastExists(pool); }
    var k :| IsLeast(k, pool);
    k
  }

  predicate HasBundle(db: Db, u: Str) {
    u in db.users && u in db.bundles
  }

  ghost function AfterPop(db: Db, u: Str): Db {
    var pool := PoolIn(db.pools, u);
    if !HasBundle(db, u) || pool == map[] then db
    else db.(pools := db.pools[u := pool - {Least(pool)}])
  }

  ghost function PopReply(db: Db, u: Str): Option<Handout> {
    var pool := PoolIn(db.pools, u);
    if !HasBundle(db, u) then None
    else if pool == map[] then Some(Handout(db.users[u].identity, db.bundles[u].spk, None, 0))
    else Some(Handout(db.users[u].identity, db.bundles[u].spk, Some(Opk(Least(pool), pool[Least(pool)])), |pool| - 1))
  }

  predicate Expired(row: Row, now: int) {
    row.expiresAt.Some? && row.expiresAt.value <= now
  }

  datatype Fetched = NotFound | Gone | Found(row: Row)

  function FetchReply(wrapped: map<Str, Row>, id: Str, now: int): Fetched {
    if id !in wrapped then NotFound
    else if Expired(wrapped[id], now) then Gone
    else Found(wrapped[id])
  }

  function AfterFetch(wrapped: map<Str, Row>, id: Str, now: int): map<Str, Row> {
    if id in wrapped && (Expired(wrapped[id], now) || wrapped[id].singleUse) then wrapped - {id} else wrapped
  }

  /** Only the burning user's own rows match. */
  predicate Burns(id: Str, row: Row, u: Str, scope: Scope) {
    && row.sender == u
    && match scope
       case Single(c) => id == c
       case ToUser(r) => row.recipient == r
       case All => true
  }

  function Matched(wrapped: map<Str, Row>, u: Str, scope: Scope): set<Str> {
    set id | id in wrapped && Burns(id, wrapped[id], u, scope)
  }

  function AfterRegister(users: map<Str, User>, u: Str, identity: Identity, now: Str): map<Str, User> {
    users[u := if u in users then User(identity, users[u].registeredAt, Some(now)) else User(identity, now, None)]
  }

  // ---- What each transaction comes to, row by row ----

  /** Another user's row, or one outside the scope. */
  predicate Spared(id: Str, row: Row, u: Str, scope: Scope) {
    || row.sender != u
    || (scope.Single? && id != scope.contentId)
    || (scope.ToUser? && row.recipient != scope.userId)
  }

  /** The spared rows stay as they are, all others go, and `deleted` counts them. */
  ghost predicate BurnIs(before: map<Str, Row>, after: map<Str, Row>, u: Str, scope: Scope, deleted: nat) {
    && (forall id :: id in after <==> id in before && Spared(id, before[id], u, scope))
    && (forall id :: id in after ==> after[id] == before[id])
    && |after| + deleted == |before|
  }

  lemma RemovedCount(m: map<Str, Row>, gone: set<Str>)
    requires gone <= m.Keys
    ensures |m - gone| + |gone| == |m|
  {
    assert (m - gone).Keys == m.Keys - gone;
    assert |m.Keys| == |m| && |(m - gone).Keys| == |m - gone|;
  }

  lemma BurnedKeys(before: map<Str, Row>, u: Str, scope: Scope, id: Str)
    ensures id in before - Matched(before, u, scope) <==> id in before && Spared(id, before[id], u, scope)
  {
  }

  lemma BurnsAsPromised(before: map<Str, Row>, u: Str, scope: Scope)
    ensures BurnIs(before, before - Matched(before, u, scope), u, scope, |Matched(before, u, scope)|)
  {
    RemovedCount(before, Matched(before, u, scope));
    forall id
      ensures id in before - Matched(before, u, scope) <==> id in before && Spared(id, before[id], u, scope)
    {
      BurnedKeys(before, u, scope, id);
    }
  }

  lemma BurnDetermined(before: map<Str, Row>, a: map<Str, Row>, b: map<Str, Row>, u: Str, scope: Scope, m: nat, n: nat)
    requires BurnIs(before, a, u, scope, m) && BurnIs(before, b, u, scope, n)
    ensures a == b && m == n
  {
    assert a.Keys == b.Keys;
    assert forall id :: id in a ==> a[id] == b[id];
  }

  lemma BurnsExactly(before: map<Str, Row>, after: map<Str, Row>, u: Str, scope: Scope, deleted: nat)
    ensures after == before - Matched(before, u, scope) && deleted == |Matched(before, u, scope)| <==>
            BurnIs(before, after, u, scope, deleted)
  {
    var doomed := Matched(before, u, scope);
    BurnsAsPromised(before, u, scope);
    if BurnIs(before, after, u, scope, deleted) {
      BurnDetermined(before, after, before - doomed, u, scope, deleted, |doomed|);
    }
  }

  /** A single burn deletes one row when the content id is the user's own, and none otherwise. */
  lemma SingleBurnCounts(wrapped: map<Str, Row>, u: Str, c: Str)
    ensures |Matched(wrapped, u, Single(c))| == if c in wrapped && wrapped[c].sender == u then 1 else 0
  {
    if c in wrapped && wrapped[c].sender == u {
      assert Matched(wrapped, u, Single(c)) == {c};
    } else {
      assert Matched(wrapped, u, Single(c)) == {};
    }
  }

  /** A stored row is delivered before its expiry; it goes when it is expired or single-use; no other row changes. */
  ghost predicate FetchIs(before: map<Str, Row>, after: map<Str, Row>, id: Str, now: int, r: Fetched) {
    && (r == NotFound <==> id !in before)
    && (r == Gone <==> id in before && before[id].expiresAt.Some? && before[id].expiresAt.value <= now)
    && (r.Found? ==> id in before && r.row == before[id])
    && (id in after <==> r.Found? && !r.row.singleUse)
    && (forall k :: k != id ==> (k in after <==> k in before))
    && (forall k :: k in after ==> k in before && after[k] == before[k])
  }

  lemma FetchesExactly(before: map<Str, Row>, after: map<Str, Row>, id: Str, now: int, r: Fetched)
    ensures r == FetchReply(before, id, now) && after == AfterFetch(before, id, now) <==>
            FetchIs(before, after, id, now, r)
  {
    if FetchIs(before, after, id, now, r) {
      assert after == AfterFetch(before, id, now);
    }
  }

  /** The user's least one-time prekey leaves the pool with the reply, next to the identity and the signed prekey. */
  ghost predicate PopIs(before: Db, after: Db, u: Str, r: Option<Handout>) {
    && after.users == before.users && after.bundles == before.bundles && after.wrapped == before.wrapped
    && (r.Some? <==> u in before.users && u in before.bundles)
    && (r.None? ==> after == before)
    && (r.Some? ==>
          var pool, left := PoolIn(before.pools, u), PoolIn(after.pools, u);
          && r.value.identity == before.users[u].identity && r.value.spk == before.bundles[u].spk
          && r.value.remaining == |left|
          && (forall w :: w != u ==> PoolIn(after.pools, w) == PoolIn(before.pools, w))
          && (r.value.opk.None? ==> left == pool == map[])
          && (r.value.opk.Some? ==>
                var o := r.value.opk.value;
                && o.id in pool && pool[o.id] == o.pub && (forall k :: k in pool ==> o.id <= k)
                && left == pool - {o.id}))
  }

  lemma PopsAsPromised(db: Db, u: Str)
    ensures PopIs(db, AfterPop(db, u), u, PopReply(db, u))
  {
    var pool := PoolIn(db.pools, u);
    if HasBundle(db, u) && pool != map[] {
      RemoveOne(pool, Least(pool));
    }
  }

  lemma PopDetermined(db: Db, after: Db, u: Str, r: Option<Handout>)
    requires PopIs(db, after, u, r)
    ensures r == PopReply(db, u)
  {
    var pool := PoolIn(db.pools, u);
    if r.Some? && r.value.opk.Some? {
      var o := r.value.opk.value;
      assert IsLeast(o.id, pool) && IsLeast(Least(pool), pool);
      RemoveOne(pool, o.id);
    }
  }

  ghost predicate NewIds(pool: Pool, opks: seq<Opk>) {
    && (forall i :: 0 <= i < |opks| ==> opks[i].id !in pool)
    && (forall i, j :: 0 <= i < j < |opks| ==> opks[i].id != opks[j].id)
  }

  /** The pool with the new prekeys, and nothing else new. */
  ghost predicate PoolGrows(pool: Pool, after: Pool, opks: seq<Opk>) {
    && (forall k :: k in pool ==> k in after && after[k] == pool[k])
    && (forall i :: 0 <= i < |opks| ==> opks[i].id in after && after[opks[i].id] == opks[i].pub)
    && (forall k :: k in after ==> k in pool || exists i :: 0 <= i < |opks| && opks[i].id == k)
  }

  lemma GrowsOnce(pool: Pool, mid: Pool, opks: seq<Opk>, o: Opk)
    requires PoolGrows(pool, mid, opks) && o.id !in mid
    ensures PoolGrows(pool, mid[o.id := o.pub], opks + [o])
  {
    var all, after := opks + [o], mid[o.id := o.pub];
    assert all[|opks|] == o;
    forall k | k in after && k !in pool
      ensures exists i :: 0 <= i < |all| && all[i].id == k
    {
      if k != o.id {
        var i :| 0 <= i < |opks| && opks[i].id == k;
        assert all[i].id == k;
      }
    }
  }

  lemma {:induction false} AddedGrow(pool: Pool, opks: seq<Opk>)
    requires Fits(pool, opks)
    ensures PoolGrows(pool, AddOpks(pool, opks), opks)
  {
    if opks != [] {
      var n := |opks| - 1;
      AddedGrow(pool, opks[..n]);
      AddedIds(pool, opks[..n]);
      GrowsOnce(pool, AddOpks(pool, opks[..n]), opks[..n], opks[n]);
      assert opks == opks[..n] + [opks[n]];
    }
  }

  /** Everything is stored, the signed prekey in front of the last one, or nothing changes; and which of the two. */
  ghost predicate UpsertIs(before: Db, after: Db, u: Str, spk: Option<Spk>, opks: seq<Opk>, r: Upsert) {
    var pool := PoolIn(before.pools, u);
    && (r == NoSuchUser <==> u !in before.users && (opks != [] || (spk.Some? && u !in before.bundles)))
    && (r == PrimaryKeyTaken ==> !NewIds(pool, opks))
    && (r != Stored ==> after == before)
    && (r == Stored ==>
          && NewIds(pool, opks) && PoolGrows(pool, PoolIn(after.pools, u), opks)
          && (spk.None? ==> after.bundles == before.bundles)
          && (spk.Some? ==>
                && u in after.bundles && after.bundles[u].spk == spk.value
                && after.bundles[u].prev == if u in before.bundles then Some(before.bundles[u].spk) else None))
    && after.users == before.users && after.wrapped == before.wrapped
    && (forall w :: w != u ==> PoolIn(after.pools, w) == PoolIn(before.pools, w))
    && (forall w :: w != u ==> (w in after.bundles <==> w in before.bundles))
    && (forall w :: w != u && w in after.bundles ==> after.bundles[w] == before.bundles[w])
  }

  lemma UpsertsAsPromised(db: Db, u: Str, spk: Option<Spk>, opks: seq<Opk>)
    ensures UpsertIs(db, AfterUpsert(db, u, spk, opks), u, spk, opks, UpsertOutcome(db, u, spk, opks))
  {
    var pool := PoolIn(db.pools, u);
    assert Fits(pool, opks) <==> NewIds(pool, opks);
    if Fits(pool, opks) { AddedGrow(pool, opks); }
  }

  // ---- The tables ----

  /** Inserts one prekey at a time and stops at the first id already there. */
  lemma FitsSnoc(pool: Pool, os: seq<Opk>, i: nat)
    requires i < |os| && Fits(pool, os[..i])
    ensures Fits(pool, os[..i + 1]) <==> os[i].id !in AddOpks(pool, os[..i])
    ensures AddOpks(pool, os[..i + 1]) == AddOpks(pool, os[..i])[os[i].id := os[i].pub]
    ensures os[i].id in AddOpks(pool, os[..i]) ==> !Fits(pool, os)
  {
    AddedIds(pool, os[..i]);
    assert os[..i + 1][..i] == os[..i];
  }

  method InsertOpks(pool: Pool, opks: seq<Opk>) returns (r: Option<Pool>)
    ensures r.Some? <==> Fits(pool, opks)
    ensures r.Some? ==> r.value == AddOpks(pool, opks)
  {
    var now: Pool := pool;
    for i := 0 to |opks|
      invariant Fits(pool, opks[..i]) && now == AddOpks(pool, opks[..i])
    {
      FitsSnoc(pool, opks, i);
      if opks[i].id in now {
        return None;
      }
      now := now[opks[i].id := opks[i].pub];
    }
    assert opks[..|opks|] == opks;
    r := Some(now);
  }

  class Tables {
    var users: map<Str, User>
    var bundles: map<Str, Bundle>
    var pools: map<Str, Pool>
    var wrapped: map<Str, Row>

    function Contents(): Db
      reads this
    {
      Db(users, bundles, pools, wrapped)
    }

    constructor ()
      ensures Contents() == EMPTY
    {
      users, bundles, pools, wrapped := map[], map[], map[], map[];
    }

    method UpsertUser(u: Str, identity: Identity, now: Str) returns (isNew: bool)
      modifies this`users
      ensures isNew <==> u !in old(users)
      ensures users == AfterRegister(old(users), u, identity, now)
      ensures u in users && users[u].identity == identity
      ensures isNew ==> users[u].registeredAt == now && users[u].lastRotatedAt == None
      ensures !isNew ==> users[u].registeredAt == old(users)[u].registeredAt && users[u].lastRotatedAt == Some(now)
      ensures forall w :: w != u ==> (w in users <==> w in old(users)) && (w in users ==> users[w] == old(users)[w])
    {
      isNew := u !in users;
      if isNew {
        users := users[u := User(identity, now, None)];
      } else {
        users := users[u := users[u].(identity := identity, lastRotatedAt := Some(now))];
      }
    }

    /** One transaction: rotate, then insert one prekey at a time; a violated constraint rolls everything back. */
    method UpsertPrekeyBundle(u: Str, spk: Option<Spk>, opks: seq<Opk>) returns (r: Upsert)
      modifies this
      ensures r == Stored <==> !Orphans(old(Contents()), u, spk, opks) && Fits(PoolIn(old(pools), u), opks)
      ensures r == UpsertOutcome(old(Contents()), u, spk, opks)
      ensures r != Stored ==> Contents() == old(Contents())
      ensures Contents() == AfterUpsert(old(Contents()), u, spk, opks)
      ensures UpsertIs(old(Contents()), Contents(), u, spk, opks, r)
    {
      UpsertsAsPromised(Contents(), u, spk, opks);
      var savedBundles, savedPools := bundles, pools;
      if spk.Some? {
        if u in bundles {
          bundles := bundles[u := Bundle(spk.value, Some(bundles[u].spk))];
        } else if u in users {
          bundles := bundles[u := Bundle(spk.value, None)];
        } else {
          return NoSuchUser;
        }
      }
      if opks != [] && u !in users {
        bundles, pools := savedBundles, savedPools;
        return NoSuchUser;
      }
      var inserted := InsertOpks(PoolIn(pools, u), opks);
      if inserted.None? {
        bundles, pools := savedBundles, savedPools;
        return PrimaryKeyTaken;
      }
      pools := pools[u := inserted.value];
      r := Stored;
    }

    /** One transaction: the least one-time prekey leaves the pool with the reply. */
    method PopPrekeyBundle(u: Str) returns (r: Option<Handout>)
      modifies this`pools
      ensures r == PopReply(old(Contents()), u)
      ensures Contents() == AfterPop(old(Contents()), u)
      ensures PopIs(old(Contents()), Contents(), u, r)
    {
      PopsAsPromised(Contents(), u);
      if u !in users || u !in bundles {
        return None;
      }
      var pool: Pool := PoolIn(pools, u);
      var opk: Option<Opk> := None;
      if pool != map[] {
        ghost var least := Least(pool);
        var k :| k in pool && forall j :: j in pool ==> k <= j;
        assert k == least;
        opk := Some(Opk(k, pool[k]));
        assert |pool| == |pool - {k}| + 1 by { RemoveOne(pool, k); }
        pool := pool - {k};
        pools := pools[u := pool];
      }
      r := Some(Handout(users[u].identity, bundles[u].spk, opk, |pool|));
    }

    method InsertWrappedKey(id: Str, row: Row) returns (ok: bool)
      modifies this`wrapped
      ensures ok <==> id !in old(wrapped)
      ensures wrapped == if ok then old(wrapped)[id := row] else old(wrapped)
    {
      ok := id !in wrapped;
      if ok {
        wrapped := wrapped[id := row];
      }
    }

    method FetchWrappedKey(id: Str, now: int) returns (r: Fetched)
      modifies this`wrapped
      ensures r == FetchReply(old(wrapped), id, now)
      ensures wrapped == AfterFetch(old(wrapped), id, now)
      ensures FetchIs(old(wrapped), wrapped, id, now, r)
    {
      FetchesExactly(wrapped, AfterFetch(wrapped, id, now), id, now, FetchReply(wrapped, id, now));
      if id !in wrapped {
        return NotFound;
      }
      var row := wrapped[id];
      if row.expiresAt.Some? && row.expiresAt.value <= now {
        wrapped := wrapped - {id};
        return Gone;
      }
      if row.singleUse {
        wrapped := wrapped - {id};
      }
      r := Found(row);
    }

    method BurnWrappedKeys(u: Str, scope: Scope) returns (deleted: nat)
      modifies this`wrapped
      ensures deleted == |Matched(old(wrapped), u, scope)|
      ensures wrapped == old(wrapped) - Matched(old(wrapped), u, scope)
      ensures BurnIs(old(wrapped), wrapped, u, scope, deleted)
      ensures scope.Single? ==>
                var c := scope.contentId;
                deleted == if c in old(wrapped) && old(wrapped)[c].sender == u then 1 else 0
    {
      BurnsExactly(wrapped, wrapped - Matched(wrapped, u, scope), u, scope, |Matched(wrapped, u, scope)|);
      if scope.Single? { SingleBurnCounts(wrapped, u, scope.contentId); }
      var doomed: set<Str>;
      match scope {
        case Single(c) => doomed := set id | id in wrapped && id == c && wrapped[id].sender == u;
        case ToUser(r) => doomed := set id | id in wrapped && wrapped[id].sender == u && wrapped[id].recipient == r;
        case All => doomed := set id | id in wrapped && wrapped[id].sender == u;
      }
      assert doomed == Matched(wrapped, u, scope);
      deleted := |doomed|;
      wrapped := wrapped - doomed;
    }
  }

  lemma RemoveOne(pool: Pool, k: int)
    requires k in pool
    ensures |pool - {k}| == |pool| - 1
  {
    assert (pool - {k}).Keys == pool.Keys - {k};
    assert |pool.Keys| == |pool| && |(pool - {k}).Keys| == |pool - {k}|;
  }

  lemma {:induction false} AddedIds(pool: Pool, opks: seq<Opk>)
    ensures forall k :: k in AddOpks(pool, opks) <==> k in pool || exists i :: 0 <= i < |opks| && opks[i].id == k
  {
    if opks != [] {
      var n := |opks| - 1;
      AddedIds(pool, opks[..n]);
      assert opks == opks[..n] + [opks[n]];
    }
  }
}
