/** Stable insertion sort of keyed entries, and why its result ignores the input order. */
module Sorting {

  ghost predicate TotalOrder<K(!new)>(leq: (K, K) -> bool) {
    && (forall a, b :: leq(a, b) || leq(b, a))
    && (forall a, b :: leq(a, b) && leq(b, a) ==> a == b)
    && (forall a, b, c :: leq(a, b) && leq(b, c) ==> leq(a, c))
  }

  ghost predicate SortedByKey<K, V>(s: seq<(K, V)>, leq: (K, K) -> bool) {
    forall i, j :: 0 <= i < j < |s| ==> leq(s[i].0, s[j].0)
  }

  function Keys<K, V>(s: seq<(K, V)>): (k: seq<K>)
    ensures |k| == |s|
    ensures forall i :: 0 <= i < |s| ==> k[i] == s[i].0
  {
    seq(|s|, i requires 0 <= i < |s| => s[i].0)
  }

  function Insert<K, V>(e: (K, V), s: seq<(K, V)>, leq: (K, K) -> bool): (r: seq<(K, V)>)
    ensures |r| == |s| + 1
  {
    if s == [] || leq(e.0, s[0].0) then [e] + s else [s[0]] + Insert(e, s[1..], leq)
  }

  /** The keyed form of JavaScript's stable `Array.prototype.sort`. */
  function SortByKey<K, V>(s: seq<(K, V)>, leq: (K, K) -> bool): (r: seq<(K, V)>)
    ensures |r| == |s|
  {
    if s == [] then [] else Insert(s[0], SortByKey(s[1..], leq), leq)
  }

  lemma {:induction false} InsertPermutes<K, V>(e: (K, V), s: seq<(K, V)>, leq: (K, K) -> bool)
    ensures multiset(Insert(e, s, leq)) == multiset(s) + multiset{e}
  {
    if s == [] || leq(e.0, s[0].0) {
    } else {
      InsertPermutes(e, s[1..], leq);
      assert s == [s[0]] + s[1..];
    }
  }

  lemma {:induction false} SortPermutes<K, V>(s: seq<(K, V)>, leq: (K, K) -> bool)
    ensures multiset(SortByKey(s, leq)) == multiset(s)
  {
    if s != [] {
      SortPermutes(s[1..], leq);
      InsertPermutes(s[0], SortByKey(s[1..], leq), leq);
      assert s == [s[0]] + s[1..];
    }
  }

  lemma {:induction false} InsertSorted<K(!new), V>(e: (K, V), s: seq<(K, V)>, leq: (K, K) -> bool)
    requires TotalOrder(leq) && SortedByKey(s, leq)
    ensures SortedByKey(Insert(e, s, leq), leq)
  {
    var r := Insert(e, s, leq);
    if s == [] || leq(e.0, s[0].0) {
    } else {
      InsertSorted(e, s[1..], leq);
      var t := Insert(e, s[1..], leq);
      InsertPermutes(e, s[1..], leq);
      forall j | 0 < j < |r| ensures leq(r[0].0, r[j].0) {
        assert r[j] == t[j - 1] && t[j - 1] in multiset(t);
        assert t[j - 1] == e || t[j - 1] in s[1..];
      }
    }
  }

  lemma {:induction false} SortSorts<K(!new), V>(s: seq<(K, V)>, leq: (K, K) -> bool)
    requires TotalOrder(leq)
    ensures SortedByKey(SortByKey(s, leq), leq)
  {
    if s != [] {
      SortSorts(s[1..], leq);
      InsertSorted(s[0], SortByKey(s[1..], leq), leq);
    }
  }

  ghost predicate SameEntries<K, V>(a: seq<(K, V)>, b: seq<(K, V)>) {
    multiset(a) == multiset(b)
  }

  lemma {:induction false} SameLength<T>(a: seq<T>, b: seq<T>)
    requires multiset(a) == multiset(b)
    ensures |a| == |b|
  {
    assert |multiset(a)| == |a| && |multiset(b)| == |b|;
  }

  /** Entries with the same key are the same entry. */
  ghost predicate KeysDetermine<K, V>(s: seq<(K, V)>) {
    forall x, y :: x in s && y in s && x.0 == y.0 ==> x == y
  }

  ghost predicate DistinctKeys<K, V>(s: seq<(K, V)>) {
    forall i, j :: 0 <= i < j < |s| ==> s[i].0 != s[j].0
  }

  lemma RemoveAt<K, V>(b: seq<(K, V)>, j: nat) returns (r: seq<(K, V)>)
    requires j < |b| && DistinctKeys(b)
    ensures |r| == |b| - 1 && DistinctKeys(r)
    ensures multiset(b) == multiset(r) + multiset{b[j]}
    ensures forall x :: x in b && x != b[j] ==> x in r
  {
    r := b[..j] + b[j + 1..];
    assert b == b[..j] + [b[j]] + b[j + 1..];
    forall x | x in b && x != b[j] ensures x in r {
      var k :| 0 <= k < |b| && b[k] == x;
      assert x == (if k < j then r[k] else r[k - 1]);
    }
  }

  /** Equally many entries, keys distinct, and none missing: the same entries. */
  lemma {:induction false} SubsetIsPermutation<K, V>(a: seq<(K, V)>, b: seq<(K, V)>)
    requires |a| == |b| && DistinctKeys(a) && DistinctKeys(b)
    requires forall i :: 0 <= i < |a| ==> a[i] in b
    ensures SameEntries(a, b) && KeysDetermine(a)
    decreases |a|
  {
    if a != [] {
      var j :| 0 <= j < |b| && b[j] == a[0];
      var r := RemoveAt(b, j);
      SubsetIsPermutation(a[1..], r);
      assert a == [a[0]] + a[1..];
    }
  }

  lemma SameMembers<T>(a: seq<T>, b: seq<T>, x: T)
    requires multiset(a) == multiset(b)
    ensures x in a <==> x in b
  {
    assert x in a <==> x in multiset(a);
    assert x in b <==> x in multiset(b);
  }

  lemma HeadOf<K(!new), V>(s: seq<(K, V)>, x: (K, V), leq: (K, K) -> bool)
    requires TotalOrder(leq) && SortedByKey(s, leq) && x in s
    ensures leq(s[0].0, x.0)
  {
  }

  lemma SameTails<K, V>(a: seq<(K, V)>, b: seq<(K, V)>)
    requires SameEntries(a, b) && a != [] && b != [] && a[0] == b[0]
    ensures SameEntries(a[1..], b[1..])
  {
    assert a == [a[0]] + a[1..] && b == [b[0]] + b[1..];
    assert multiset(a[1..]) == multiset(a) - multiset{a[0]};
    assert multiset(b[1..]) == multiset(b) - multiset{b[0]};
  }

  lemma SameHeads<K(!new), V>(a: seq<(K, V)>, b: seq<(K, V)>, leq: (K, K) -> bool)
    requires TotalOrder(leq) && SortedByKey(a, leq) && SortedByKey(b, leq) && SameEntries(a, b) && KeysDetermine(a)
    requires a != [] && b != []
    ensures a[0] == b[0]
  {
    SameMembers(a, b, a[0]);
    SameMembers(a, b, b[0]);
    HeadOf(a, b[0], leq);
    HeadOf(b, a[0], leq);
  }

  /** Two sorted lists with the same entries, keys determining entries, are the same list. */
  lemma {:induction false} SortedUnique<K(!new), V>(a: seq<(K, V)>, b: seq<(K, V)>, leq: (K, K) -> bool)
    requires TotalOrder(leq)
    requires SortedByKey(a, leq) && SortedByKey(b, leq)
    requires SameEntries(a, b) && KeysDetermine(a)
    ensures a == b
  {
    SameLength(a, b);
    if a != [] {
      SameHeads(a, b, leq);
      SameTails(a, b);
      SortedUnique(a[1..], b[1..], leq);
      assert a == [a[0]] + a[1..] && b == [b[0]] + b[1..];
    }
  }

  /** Sorting forgets the order of entries with distinct keys. */
  lemma SortIgnoresOrder<K(!new), V>(a: seq<(K, V)>, b: seq<(K, V)>, leq: (K, K) -> bool)
    requires TotalOrder(leq) && SameEntries(a, b) && KeysDetermine(a)
    ensures SortByKey(a, leq) == SortByKey(b, leq)
  {
    SortPermutes(a, leq);
    SortPermutes(b, leq);
    SortSorts(a, leq);
    SortSorts(b, leq);
    forall x | x in SortByKey(a, leq) ensures x in a { SameMembers(a, SortByKey(a, leq), x); }
    SortedUnique(SortByKey(a, leq), SortByKey(b, leq), leq);
  }

  lemma {:induction false} InsertDistinct<K, V>(e: (K, V), s: seq<(K, V)>, leq: (K, K) -> bool)
    requires DistinctKeys(s) && forall i :: 0 <= i < |s| ==> s[i].0 != e.0
    ensures DistinctKeys(Insert(e, s, leq))
  {
    if s != [] && !leq(e.0, s[0].0) {
      InsertDistinct(e, s[1..], leq);
      InsertPermutes(e, s[1..], leq);
      var t := Insert(e, s[1..], leq);
      forall j | 0 <= j < |t| ensures t[j].0 != s[0].0 {
        assert t[j] in multiset(t);
        assert t[j] == e || t[j] in s[1..];
      }
    }
  }

  lemma {:induction false} SortDistinct<K, V>(s: seq<(K, V)>, leq: (K, K) -> bool)
    requires DistinctKeys(s)
    ensures DistinctKeys(SortByKey(s, leq))
  {
    if s != [] {
      var t := SortByKey(s[1..], leq);
      SortDistinct(s[1..], leq);
      SortPermutes(s[1..], leq);
      forall i | 0 <= i < |t| ensures t[i].0 != s[0].0 { SameMembers(s[1..], t, t[i]); }
      InsertDistinct(s[0], t, leq);
    }
  }

  /** Sorting a sorted list changes nothing. */
  lemma {:induction false} SortIdempotent<K, V>(s: seq<(K, V)>, leq: (K, K) -> bool)
    requires SortedByKey(s, leq)
    ensures SortByKey(s, leq) == s
  {
    if s != [] {
      SortIdempotent(s[1..], leq);
      if |s| > 1 {
        assert leq(s[0].0, s[1].0);
      }
    }
  }

  lemma {:induction false} InsertInjective<K, V>(
      e: (K, V), s: seq<(K, V)>, f: (K, V), t: seq<(K, V)>, leq: (K, K) -> bool)
    requires e.0 == f.0 && Keys(s) == Keys(t)
    requires Insert(e, s, leq) == Insert(f, t, leq)
    ensures e == f && s == t
  {
    SameKeyHeads(s, t);
    if s == [] {
      assert Insert(e, s, leq)[0] == e && Insert(f, t, leq)[0] == f;
    } else if leq(e.0, s[0].0) {
      assert Insert(e, s, leq)[0] == e && Insert(f, t, leq)[0] == f;
      assert Insert(e, s, leq)[1..] == s && Insert(f, t, leq)[1..] == t;
    } else {
      var r, q := Insert(e, s, leq), Insert(f, t, leq);
      assert r[0] == s[0] && q[0] == t[0];
      assert r[1..] == Insert(e, s[1..], leq) && q[1..] == Insert(f, t[1..], leq);
      InsertInjective(e, s[1..], f, t[1..], leq);
      assert s == [s[0]] + s[1..] && t == [t[0]] + t[1..];
    }
  }

  lemma SameKeyHeads<K, V>(s: seq<(K, V)>, t: seq<(K, V)>)
    requires Keys(s) == Keys(t)
    ensures |s| == |t|
    ensures s != [] ==> s[0].0 == t[0].0 && Keys(s[1..]) == Keys(t[1..])
  {
    assert |Keys(s)| == |s| && |Keys(t)| == |t|;
    if s != [] {
      assert Keys(s)[0] == Keys(t)[0];
      forall i | 0 <= i < |s| - 1 ensures Keys(s[1..])[i] == Keys(t[1..])[i] {
        assert Keys(s)[i + 1] == Keys(t)[i + 1];
      }
      assert Keys(s[1..]) == Keys(t[1..]);
    }
  }

  lemma KeysCons<K, V>(h: (K, V), t: seq<(K, V)>)
    ensures Keys([h] + t) == [h.0] + Keys(t)
  {
  }

  lemma {:induction false} InsertKeys<K, V>(e: (K, V), s: seq<(K, V)>, f: (K, V), t: seq<(K, V)>, leq: (K, K) -> bool)
    requires e.0 == f.0 && Keys(s) == Keys(t)
    ensures Keys(Insert(e, s, leq)) == Keys(Insert(f, t, leq))
  {
    SameKeyHeads(s, t);
    if s == [] || leq(e.0, s[0].0) {
      KeysCons(e, s);
      KeysCons(f, t);
    } else {
      InsertKeys(e, s[1..], f, t[1..], leq);
      KeysCons(s[0], Insert(e, s[1..], leq));
      KeysCons(t[0], Insert(f, t[1..], leq));
    }
  }

  lemma {:induction false} SortKeys<K, V>(s: seq<(K, V)>, t: seq<(K, V)>, leq: (K, K) -> bool)
    requires Keys(s) == Keys(t)
    ensures Keys(SortByKey(s, leq)) == Keys(SortByKey(t, leq))
  {
    SameKeyHeads(s, t);
    if s != [] {
      SortKeys(s[1..], t[1..], leq);
      InsertKeys(s[0], SortByKey(s[1..], leq), t[0], SortByKey(t[1..], leq), leq);
    }
  }

  /** The sort moves values by their keys alone, so it loses nothing about lists with the same keys. */
  lemma {:induction false} SortInjective<K, V>(s: seq<(K, V)>, t: seq<(K, V)>, leq: (K, K) -> bool)
    requires Keys(s) == Keys(t)
    requires SortByKey(s, leq) == SortByKey(t, leq)
    ensures s == t
  {
    SameKeyHeads(s, t);
    if s != [] {
      SortKeys(s[1..], t[1..], leq);
      InsertInjective(s[0], SortByKey(s[1..], leq), t[0], SortByKey(t[1..], leq), leq);
      SortInjective(s[1..], t[1..], leq);
      assert s == [s[0]] + s[1..] && t == [t[0]] + t[1..];
    }
  }

  lemma {:induction false} InsertAligned<K, V, W>(e: (K, V), s: seq<(K, V)>, f: (K, W), t: seq<(K, W)>,
                                                 leq: (K, K) -> bool, r: (V, W) -> bool)
    requires e.0 == f.0 && r(e.1, f.1) && Aligned(s, t, r)
    ensures Aligned(Insert(e, s, leq), Insert(f, t, leq), r)
  {
    if s != [] && !leq(e.0, s[0].0) {
      InsertAligned(e, s[1..], f, t[1..], leq, r);
    }
  }

  /** The same keys at the same positions, with related values. */
  ghost predicate Aligned<K, V, W>(s: seq<(K, V)>, t: seq<(K, W)>, r: (V, W) -> bool) {
    && |s| == |t|
    && forall i :: 0 <= i < |s| ==> s[i].0 == t[i].0 && r(s[i].1, t[i].1)
  }

  /** The sort moves both lists the same way. */
  lemma {:induction false} SortAligned<K, V, W>(s: seq<(K, V)>, t: seq<(K, W)>, leq: (K, K) -> bool, r: (V, W) -> bool)
    requires Aligned(s, t, r)
    ensures Aligned(SortByKey(s, leq), SortByKey(t, leq), r)
  {
    if s != [] {
      SortAligned(s[1..], t[1..], leq, r);
      InsertAligned(s[0], SortByKey(s[1..], leq), t[0], SortByKey(t[1..], leq), leq, r);
    }
  }

  // ---- Lists compared by what is kept of their entries ----

  /** The keys, with what is kept of the values. */
  function Kept<K, V, W>(f: V -> W, s: seq<(K, V)>): (r: seq<(K, W)>)
    ensures |r| == |s| && forall i :: 0 <= i < |s| ==> r[i] == (s[i].0, f(s[i].1))
  {
    seq(|s|, i requires 0 <= i < |s| => (s[i].0, f(s[i].1)))
  }

  ghost function Members<T>(s: seq<T>): set<T> { set x | x in s }

  lemma SortKept<K, V, W>(f: V -> W, s: seq<(K, V)>, leq: (K, K) -> bool)
    ensures SortByKey(Kept(f, s), leq) == Kept(f, SortByKey(s, leq))
  {
    SortAligned(s, Kept(f, s), leq, (v, w) => w == f(v));
  }

  lemma KeptDistinct<K, V, W>(f: V -> W, s: seq<(K, V)>)
    requires DistinctKeys(s)
    ensures DistinctKeys(Kept(f, s))
  {
  }

  lemma {:induction false} DistinctCount<K, V>(s: seq<(K, V)>)
    requires DistinctKeys(s)
    ensures |Members(s)| == |s|
  {
    if s != [] {
      DistinctCount(s[1..]);
      assert s == [s[0]] + s[1..];
      assert s[0] !in s[1..];
      assert Members(s) == {s[0]} + Members(s[1..]);
    }
  }

  lemma SameMembersPermute<K, V>(a: seq<(K, V)>, b: seq<(K, V)>)
    requires DistinctKeys(a) && DistinctKeys(b) && Members(a) == Members(b)
    ensures SameEntries(a, b)
  {
    DistinctCount(a);
    DistinctCount(b);
    forall i | 0 <= i < |a|
      ensures a[i] in b
    {
      assert a[i] in Members(a);
    }
    SubsetIsPermutation(a, b);
  }

  lemma DistinctDetermine<K, V>(s: seq<(K, V)>)
    requires DistinctKeys(s)
    ensures KeysDetermine(s)
  {
  }

  lemma PermutedMembers<T>(a: seq<T>, b: seq<T>)
    requires multiset(a) == multiset(b)
    ensures Members(a) == Members(b)
  {
    forall x
      ensures x in a <==> x in b
    {
      SameMembers(a, b, x);
    }
  }

  lemma SortedKeepMembers<K, V, W>(f: V -> W, s: seq<(K, V)>, leq: (K, K) -> bool)
    ensures Members(Kept(f, SortByKey(s, leq))) == Members(Kept(f, s))
  {
    SortKept(f, s, leq);
    SortPermutes(Kept(f, s), leq);
    PermutedMembers(SortByKey(Kept(f, s), leq), Kept(f, s));
  }

  /** Sorted, two lists with different keys keep the same exactly when they keep the same entries. */
  lemma SortedKeepSame<K(!new), V, W>(f: V -> W, a: seq<(K, V)>, b: seq<(K, V)>, leq: (K, K) -> bool)
    requires TotalOrder(leq) && DistinctKeys(a) && DistinctKeys(b)
    ensures Kept(f, SortByKey(a, leq)) == Kept(f, SortByKey(b, leq)) <==> Members(Kept(f, a)) == Members(Kept(f, b))
  {
    SortedKeepMembers(f, a, leq);
    SortedKeepMembers(f, b, leq);
    if Members(Kept(f, a)) == Members(Kept(f, b)) {
      SortKept(f, a, leq);
      SortKept(f, b, leq);
      KeptDistinct(f, a);
      KeptDistinct(f, b);
      SameMembersPermute(Kept(f, a), Kept(f, b));
      DistinctDetermine(Kept(f, a));
      SortIgnoresOrder(Kept(f, a), Kept(f, b), leq);
    }
  }

  /** Code-unit (or byte) order: JavaScript's `<` on strings. */
  predicate LexLeq(a: seq<int>, b: seq<int>) {
    if a == [] then true
    else if b == [] then false
    else a[0] < b[0] || (a[0] == b[0] && LexLeq(a[1..], b[1..]))
  }

  lemma {:induction false} LexTotal(a: seq<int>, b: seq<int>)
    ensures LexLeq(a, b) || LexLeq(b, a)
    ensures LexLeq(a, b) && LexLeq(b, a) ==> a == b
  {
    if a != [] && b != [] {
      LexTotal(a[1..], b[1..]);
      assert a == [a[0]] + a[1..] && b == [b[0]] + b[1..];
    }
  }

  lemma {:induction false} LexTransitive(a: seq<int>, b: seq<int>, c: seq<int>)
    requires LexLeq(a, b) && LexLeq(b, c)
    ensures LexLeq(a, c)
  {
    if a != [] && b != [] && c != [] && a[0] == b[0] == c[0] {
      LexTransitive(a[1..], b[1..], c[1..]);
    }
  }
}
