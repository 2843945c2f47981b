/** Loops that fill a map by kind and tally producers, over any producers, kinds and contents. */
module WitnessLoops {
  import opened Sorting

  /** What a verified statement says, and whose it is. */
  datatype Seen<I, K, V> = Seen(producer: I, kind: K, item: V)

  /** No two of the first `n` share a kind. */
  ghost predicate DifferTo<I, K, V>(ss: seq<Seen<I, K, V>>, n: nat)
    requires n <= |ss|
  {
    forall i, j :: 0 <= i < j < n ==> ss[i].kind != ss[j].kind
  }

  ghost predicate KindsDiffer<I, K, V>(ss: seq<Seen<I, K, V>>) { DifferTo(ss, |ss|) }

  /** The map filled from the first `n`, later ones replacing earlier ones. */
  ghost function MapTo<I, K, V>(ss: seq<Seen<I, K, V>>, n: nat): map<K, V>
    requires n <= |ss|
  {
    if n == 0 then map[] else MapTo(ss, n - 1)[ss[n - 1].kind := ss[n - 1].item]
  }

  ghost function KindsTo<I, K, V>(ss: seq<Seen<I, K, V>>, n: nat): set<K>
    requires n <= |ss|
  {
    if n == 0 then {} else KindsTo(ss, n - 1) + {ss[n - 1].kind}
  }

  ghost function SignersTo<I, K, V>(ss: seq<Seen<I, K, V>>, n: nat): set<I>
    requires n <= |ss|
  {
    if n == 0 then {} else SignersTo(ss, n - 1) + {ss[n - 1].producer}
  }

  ghost function Signers<I, K, V>(ss: seq<Seen<I, K, V>>): set<I> { SignersTo(ss, |ss|) }

  function Image<I, Q(==)>(f: I -> Q, s: set<I>): set<Q> { set x | x in s :: f(x) }

  /** The entries of the map in insertion order. */
  function Entries<I, K, V>(ss: seq<Seen<I, K, V>>): (r: seq<(K, V)>)
    ensures |r| == |ss| && forall i :: 0 <= i < |ss| ==> r[i] == (ss[i].kind, ss[i].item)
  {
    seq(|ss|, i requires 0 <= i < |ss| => (ss[i].kind, ss[i].item))
  }

  lemma {:induction false} MapHas<I, K, V>(ss: seq<Seen<I, K, V>>, n: nat, i: nat)
    requires i < n <= |ss| && DifferTo(ss, n)
    ensures ss[i].kind in MapTo(ss, n) && MapTo(ss, n)[ss[i].kind] == ss[i].item
    decreases n
  {
    if i < n - 1 { MapHas(ss, n - 1, i); }
  }

  lemma {:induction false} MapKeys<I, K, V>(ss: seq<Seen<I, K, V>>, n: nat)
    requires n <= |ss|
    ensures MapTo(ss, n).Keys == KindsTo(ss, n)
    decreases n
  {
    if n > 0 { MapKeys(ss, n - 1); }
  }

  lemma {:induction false} KindIndex<I, K, V>(ss: seq<Seen<I, K, V>>, n: nat, k: K) returns (i: nat)
    requires n <= |ss| && k in KindsTo(ss, n)
    ensures i < n && ss[i].kind == k
    decreases n
  {
    if ss[n - 1].kind == k { i := n - 1; } else { i := KindIndex(ss, n - 1, k); }
  }

  lemma {:induction false} KindIn<I, K, V>(ss: seq<Seen<I, K, V>>, n: nat, i: nat)
    requires i < n <= |ss|
    ensures ss[i].kind in KindsTo(ss, n)
    decreases n
  {
    if i < n - 1 { KindIn(ss, n - 1, i); }
  }

  lemma {:induction false} SignerIn<I, K, V>(ss: seq<Seen<I, K, V>>, n: nat, i: nat)
    requires i < n <= |ss|
    ensures ss[i].producer in SignersTo(ss, n)
    decreases n
  {
    if i < n - 1 { SignerIn(ss, n - 1, i); }
  }

  lemma {:induction false} SignerIndex<I, K, V>(ss: seq<Seen<I, K, V>>, n: nat, id: I) returns (i: nat)
    requires n <= |ss| && id in SignersTo(ss, n)
    ensures i < n && ss[i].producer == id
    decreases n
  {
    if ss[n - 1].producer == id { i := n - 1; } else { i := SignerIndex(ss, n - 1, id); }
  }

  /** As many kinds as statements exactly when no two share one. */
  lemma {:induction false} KindCount<I, K, V>(ss: seq<Seen<I, K, V>>, n: nat)
    requires n <= |ss|
    ensures |KindsTo(ss, n)| <= n
    ensures DifferTo(ss, n) <==> |KindsTo(ss, n)| == n
    decreases n
  {
    if n > 0 {
      KindCount(ss, n - 1);
      var k := ss[n - 1].kind;
      if k in KindsTo(ss, n - 1) {
        var i := KindIndex(ss, n - 1, k);
        assert KindsTo(ss, n) == KindsTo(ss, n - 1);
        assert ss[i].kind == ss[n - 1].kind;
      } else {
        forall i | 0 <= i < n - 1
          ensures ss[i].kind != k
        {
          KindIn(ss, n - 1, i);
        }
      }
    }
  }

  lemma Repeats<I, K, V>(ss: seq<Seen<I, K, V>>, n: nat)
    requires n < |ss| && DifferTo(ss, n)
    ensures DifferTo(ss, n + 1) <==> ss[n].kind !in KindsTo(ss, n)
  {
    KindCount(ss, n);
    KindCount(ss, n + 1);
    if ss[n].kind in KindsTo(ss, n) {
      assert KindsTo(ss, n + 1) == KindsTo(ss, n);
    }
  }

  lemma ImageGrows<I, Q>(f: I -> Q, s: set<I>, x: I)
    ensures Image(f, s + {x}) == Image(f, s) + {f(x)}
  {
  }

  /** The probe loop: refuses a second statement of a kind, and tallies producers and their keys. */
  method FillMap<I(==), K(==), V, Q(==)>(keyOf: I -> Q, first: set<I>, firstKeys: set<Q>, ss: seq<Seen<I, K, V>>)
    returns (ok: bool, found: map<K, V>, entries: seq<(K, V)>, ids: set<I>, keys: set<Q>)
    requires firstKeys == Image(keyOf, first)
    ensures ok <==> KindsDiffer(ss)
    ensures ok ==> found == MapTo(ss, |ss|) && |found| == |ss| && entries == Entries(ss)
    ensures ok ==> ids == first + Signers(ss) && keys == Image(keyOf, ids)
  {
    found, entries, ids, keys := map[], [], first, firstKeys;
    for n := 0 to |ss|
      invariant DifferTo(ss, n) && found == MapTo(ss, n)
      invariant |entries| == n && forall i :: 0 <= i < n ==> entries[i] == (ss[i].kind, ss[i].item)
      invariant ids == first + SignersTo(ss, n) && keys == Image(keyOf, ids)
    {
      var s := ss[n];
      ImageGrows(keyOf, ids, s.producer);
      ids, keys := ids + {s.producer}, keys + {keyOf(s.producer)};
      MapKeys(ss, n);
      Repeats(ss, n);
      if s.kind in found {
        return false, found, entries, ids, keys;
      }
      found := found[s.kind := s.item];
      entries := entries + [(s.kind, s.item)];
    }
    MapKeys(ss, |ss|);
    KindCount(ss, |ss|);
    assert |found| == |found.Keys|;
    ok := true;
  }

  /** Some statement of the same kind fits. */
  ghost predicate Follows<I, K, V, W>(fits: (V, W) -> bool, ss: seq<Seen<I, K, V>>, r: Seen<I, K, W>) {
    exists i :: 0 <= i < |ss| && ss[i].kind == r.kind && fits(ss[i].item, r.item)
  }

  lemma LookUp<I, K, V, W>(fits: (V, W) -> bool, ss: seq<Seen<I, K, V>>, r: Seen<I, K, W>)
    requires KindsDiffer(ss)
    ensures var found := MapTo(ss, |ss|);
            Follows(fits, ss, r) <==> r.kind in found && fits(found[r.kind], r.item)
  {
    MapKeys(ss, |ss|);
    if i :| 0 <= i < |ss| && ss[i].kind == r.kind && fits(ss[i].item, r.item) {
      MapHas(ss, |ss|, i);
    }
    if r.kind in MapTo(ss, |ss|) {
      var i := KindIndex(ss, |ss|, r.kind);
      MapHas(ss, |ss|, i);
    }
  }

  ghost predicate FollowTo<I, K, V, W>(
      fits: (V, W) -> bool, confirmed: (nat, W) -> bool, ss: seq<Seen<I, K, V>>, rs: seq<Seen<I, K, W>>, n: nat)
    requires n <= |rs|
  {
    forall j :: 0 <= j < n ==> Follows(fits, ss, rs[j]) && confirmed(j, rs[j].item)
  }

  ghost predicate AllFollow<I, K, V, W>(
      fits: (V, W) -> bool, confirmed: (nat, W) -> bool, ss: seq<Seen<I, K, V>>, rs: seq<Seen<I, K, W>>) {
    FollowTo(fits, confirmed, ss, rs, |rs|)
  }

  /** One turn of the readback loop goes on exactly when the readback fits, is new and is confirmed. */
  lemma MatchNext<I, K, V, W>(
      fits: (V, W) -> bool, confirmed: (nat, W) -> bool,
      ss: seq<Seen<I, K, V>>, found: map<K, V>, rs: seq<Seen<I, K, W>>, n: nat)
    requires KindsDiffer(ss) && found == MapTo(ss, |ss|) && n < |rs|
    requires DifferTo(rs, n) && FollowTo(fits, confirmed, ss, rs, n)
    ensures var r := rs[n];
            var goes := && r.kind in found && fits(found[r.kind], r.item) && r.kind !in KindsTo(rs, n)
                        && confirmed(n, r.item);
            && (goes ==> DifferTo(rs, n + 1) && FollowTo(fits, confirmed, ss, rs, n + 1))
            && (!goes ==> !(KindsDiffer(rs) && AllFollow(fits, confirmed, ss, rs)))
  {
    LookUp(fits, ss, rs[n]);
    Repeats(rs, n);
  }

  /** The readback loop: each one must fit the statement of its kind and be confirmed, and no two share a kind. */
  method MatchAll<I(==), K(==), V, W, Q(==)>(
      keyOf: I -> Q, fits: (V, W) -> bool, confirmed: (nat, W) -> bool,
      ghost ss: seq<Seen<I, K, V>>, found: map<K, V>, rs: seq<Seen<I, K, W>>, first: set<I>, firstKeys: set<Q>)
    returns (ok: bool, kinds: set<K>, ids: set<I>, keys: set<Q>)
    requires KindsDiffer(ss) && found == MapTo(ss, |ss|) && firstKeys == Image(keyOf, first)
    ensures ok <==> KindsDiffer(rs) && AllFollow(fits, confirmed, ss, rs)
    ensures ok ==> |kinds| == |rs|
    ensures ok ==> ids == first + Signers(rs) && keys == Image(keyOf, ids)
  {
    kinds, ids, keys := {}, first, firstKeys;
    for n := 0 to |rs|
      invariant DifferTo(rs, n) && kinds == KindsTo(rs, n) && FollowTo(fits, confirmed, ss, rs, n)
      invariant ids == first + SignersTo(rs, n) && keys == Image(keyOf, ids)
    {
      var r := rs[n];
      ImageGrows(keyOf, ids, r.producer);
      ids, keys := ids + {r.producer}, keys + {keyOf(r.producer)};
      MatchNext(fits, confirmed, ss, found, rs, n);
      if r.kind !in found || !fits(found[r.kind], r.item) || r.kind in kinds {
        return false, kinds, ids, keys;
      }
      if !confirmed(n, r.item) {
        return false, kinds, ids, keys;
      }
      kinds := kinds + {r.kind};
    }
    KindCount(rs, |rs|);
    ok := true;
  }

  // ---- What set sizes give away ----

  lemma SetOfSizeAtLeast<T>(s: set<T>, t: set<T>)
    requires s <= t && |s| == |t|
    ensures s == t
  {
    if x :| x in t && x !in s {
      SubsetSize(s, t - {x});
    }
  }

  lemma {:induction false} SubsetSize<T>(s: set<T>, t: set<T>)
    requires s <= t
    ensures |s| <= |t|
    decreases |s|
  {
    if x :| x in s { SubsetSize(s - {x}, t - {x}); }
  }

  lemma {:induction false} ImageSize<I, Q>(f: I -> Q, s: set<I>)
    ensures |Image(f, s)| <= |s|
    decreases |s|
  {
    if x :| x in s {
      ImageSize(f, s - {x});
      ImageGrows(f, s - {x}, x);
      assert s - {x} + {x} == s;
    } else {
      assert Image(f, s) == {};
    }
  }

  /** An image as large as its source comes from distinct values. */
  lemma ImageFull<I, Q>(f: I -> Q, s: set<I>, x: I, y: I)
    requires |Image(f, s)| == |s| && x in s && y in s && x != y
    ensures f(x) != f(y)
  {
    if f(x) == f(y) {
      var rest := s - {x};
      assert y in rest && rest + {x} == s;
      ImageGrows(f, rest, x);
      assert Image(f, rest) == Image(f, s);
      ImageSize(f, rest);
    }
  }

  /** With all kinds present once among as many statements as kinds, each kind has exactly one. */
  lemma EveryKindOnce<I, K, V>(ss: seq<Seen<I, K, V>>, kinds: set<K>, k: K) returns (i: nat)
    requires KindsDiffer(ss) && |ss| == |kinds| && k in kinds
    requires forall j :: 0 <= j < |ss| ==> ss[j].kind in kinds
    ensures i < |ss| && ss[i].kind == k
    ensures forall j :: 0 <= j < |ss| && ss[j].kind == k ==> j == i
  {
    KindCount(ss, |ss|);
    KindsWithin(ss, |ss|, kinds);
    SetOfSizeAtLeast(KindsTo(ss, |ss|), kinds);
    i := KindIndex(ss, |ss|, k);
  }

  lemma {:induction false} KindsWithin<I, K, V>(ss: seq<Seen<I, K, V>>, n: nat, kinds: set<K>)
    requires n <= |ss| && forall j :: 0 <= j < |ss| ==> ss[j].kind in kinds
    ensures KindsTo(ss, n) <= kinds
    decreases n
  {
    if n > 0 { KindsWithin(ss, n - 1, kinds); }
  }

  /** Four producers in all, with two lists of other roles beside the first two, leave one producer to each list. */
  lemma OneSignerPerList<I, K, V, W, R>(
      role: I -> R, d: I, e: I, ss: seq<Seen<I, K, V>>, rs: seq<Seen<I, K, W>>, p: R, r: R)
    requires |ss| > 0 && |rs| > 0 && |{d, e} + Signers(ss) + Signers(rs)| == 4
    requires role(d) != role(e) && role(d) != p && role(d) != r && role(e) != p && role(e) != r && p != r
    requires forall i :: 0 <= i < |ss| ==> role(ss[i].producer) == p
    requires forall i :: 0 <= i < |rs| ==> role(rs[i].producer) == r
    ensures forall i :: 0 <= i < |ss| ==> ss[i].producer == ss[0].producer
    ensures forall i :: 0 <= i < |rs| ==> rs[i].producer == rs[0].producer
    ensures {d, e} + Signers(ss) + Signers(rs) == {d, e, ss[0].producer, rs[0].producer}
  {
    var ids := {d, e} + Signers(ss) + Signers(rs);
    var four := {d, e, ss[0].producer, rs[0].producer};
    SignerIn(ss, |ss|, 0);
    SignerIn(rs, |rs|, 0);
    assert role(ss[0].producer) == p && role(rs[0].producer) == r;
    assert |four| == 4;
    SetOfSizeAtLeast(four, ids);
    forall i | 0 <= i < |ss|
      ensures ss[i].producer == ss[0].producer
    {
      SignerIn(ss, |ss|, i);
      assert ss[i].producer in four;
    }
    forall i | 0 <= i < |rs|
      ensures rs[i].producer == rs[0].producer
    {
      SignerIn(rs, |rs|, i);
      assert rs[i].producer in four;
    }
  }

  // ---- Order does not matter ----

  lemma IndexIn<T>(a: seq<T>, b: seq<T>, i: nat) returns (j: nat)
    requires multiset(a) == multiset(b) && i < |a|
    ensures j < |b| && b[j] == a[i]
  {
    assert a[i] in multiset(a);
    assert a[i] in b;
    j :| 0 <= j < |b| && b[j] == a[i];
  }

  lemma KindsPermute<I, K, V>(ss: seq<Seen<I, K, V>>, ts: seq<Seen<I, K, V>>)
    requires multiset(ss) == multiset(ts)
    ensures KindsTo(ss, |ss|) == KindsTo(ts, |ts|)
  {
    forall k | k in KindsTo(ss, |ss|)
      ensures k in KindsTo(ts, |ts|)
    {
      var i := KindIndex(ss, |ss|, k);
      var j := IndexIn(ss, ts, i);
      KindIn(ts, |ts|, j);
    }
    forall k | k in KindsTo(ts, |ts|)
      ensures k in KindsTo(ss, |ss|)
    {
      var i := KindIndex(ts, |ts|, k);
      var j := IndexIn(ts, ss, i);
      KindIn(ss, |ss|, j);
    }
  }

  lemma SignersPermute<I, K, V>(ss: seq<Seen<I, K, V>>, ts: seq<Seen<I, K, V>>)
    requires multiset(ss) == multiset(ts)
    ensures Signers(ss) == Signers(ts)
  {
    forall id | id in Signers(ss)
      ensures id in Signers(ts)
    {
      var i := SignerIndex(ss, |ss|, id);
      var j := IndexIn(ss, ts, i);
      SignerIn(ts, |ts|, j);
    }
    forall id | id in Signers(ts)
      ensures id in Signers(ss)
    {
      var i := SignerIndex(ts, |ts|, id);
      var j := IndexIn(ts, ss, i);
      SignerIn(ss, |ss|, j);
    }
  }

  lemma DifferPermutes<I, K, V>(ss: seq<Seen<I, K, V>>, ts: seq<Seen<I, K, V>>)
    requires multiset(ss) == multiset(ts) && KindsDiffer(ss)
    ensures KindsDiffer(ts)
  {
    KindsPermute(ss, ts);
    SameLength(ss, ts);
    KindCount(ss, |ss|);
    KindCount(ts, |ts|);
  }

  lemma FollowPermutes<I, K, V, W>(
      fits: (V, W) -> bool, confirmed: (nat, W) -> bool,
      ss: seq<Seen<I, K, V>>, rs: seq<Seen<I, K, W>>, ss': seq<Seen<I, K, V>>, rs': seq<Seen<I, K, W>>)
    requires multiset(ss) == multiset(ss') && multiset(rs) == multiset(rs')
    requires AllFollow(fits, confirmed, ss, rs)
    requires forall i, j, w :: confirmed(i, w) == confirmed(j, w)
    ensures AllFollow(fits, confirmed, ss', rs')
  {
    forall j | 0 <= j < |rs'|
      ensures Follows(fits, ss', rs'[j]) && confirmed(j, rs'[j].item)
    {
      var h := IndexIn(rs', rs, j);
      var i :| 0 <= i < |ss| && ss[i].kind == rs[h].kind && fits(ss[i].item, rs[h].item);
      var g := IndexIn(ss, ss', i);
      assert ss'[g].kind == rs'[j].kind && fits(ss'[g].item, rs'[j].item);
      assert confirmed(h, rs[h].item);
    }
  }

  lemma {:induction false} AllBy<I, K, V>(ss: seq<Seen<I, K, V>>, n: nat, id: I)
    requires n <= |ss| && forall i :: 0 <= i < |ss| ==> ss[i].producer == id
    ensures SignersTo(ss, n) == if n == 0 then {} else {id}
    decreases n
  {
    if n > 0 { AllBy(ss, n - 1, id); }
  }

  lemma FourImages<I, Q>(f: I -> Q, a: I, b: I, c: I, d: I)
    requires a != b && a != c && a != d && b != c && b != d && c != d
    requires f(a) != f(b) && f(a) != f(c) && f(a) != f(d) && f(b) != f(c) && f(b) != f(d) && f(c) != f(d)
    ensures |{a, b, c, d}| == 4 && |Image(f, {a, b, c, d})| == 4
  {
    assert Image(f, {a, b, c, d}) == {f(a), f(b), f(c), f(d)};
  }
}
