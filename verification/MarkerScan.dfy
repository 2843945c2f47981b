/** The block-by-block search of an executable for QA-shell markers. */
module MarkerScan {
  import opened Bytes

  function LowerByte(b: byte): byte {
    if 65 <= b <= 90 then b + 32 else b
  }

  /** Python's `bytes.lower`: ASCII letters only. */
  function Lower(s: bytes): (r: bytes)
    ensures |r| == |s|
    ensures forall i :: 0 <= i < |s| ==> r[i] == LowerByte(s[i])
  {
    seq(|s|, i requires 0 <= i < |s| => LowerByte(s[i]))
  }

  ghost predicate OccursAt(m: bytes, s: bytes, i: int) {
    0 <= i <= i + |m| <= |s| && s[i..i + |m|] == m
  }

  /** `m in s` for byte strings. */
  ghost predicate Occurs(m: bytes, s: bytes) {
    exists i :: OccursAt(m, s, i)
  }

  /** A marker is somewhere in the file, in any case. */
  ghost predicate Tainted(markers: seq<bytes>, file: bytes) {
    exists k :: 0 <= k < |markers| && Occurs(Lower(markers[k]), Lower(file))
  }

  /** The same byte, or the same letter in the other case. */
  predicate SameLetter(a: byte, b: byte) {
    a == b || ('A' as int <= a <= 'Z' as int && b == a + 32) || ('A' as int <= b <= 'Z' as int && a == b + 32)
  }

  ghost predicate SpelledAt(m: bytes, s: bytes, i: nat) {
    i + |m| <= |s| && forall j :: 0 <= j < |m| ==> SameLetter(m[j], s[i + j])
  }

  lemma SpelledExactly(m: bytes, s: bytes, i: nat)
    ensures OccursAt(Lower(m), Lower(s), i) <==> SpelledAt(m, s, i)
  {
    if i + |m| <= |s| {
      var window := Lower(s)[i..i + |m|];
      forall j | 0 <= j < |m|
        ensures window[j] == Lower(m)[j] <==> SameLetter(m[j], s[i + j])
      {
        assert window[j] == LowerByte(s[i + j]);
      }
    }
  }

  /** A file is tainted exactly when some marker stands in it letter by letter, in whatever case. */
  lemma TaintedExactly(markers: seq<bytes>, file: bytes)
    ensures Tainted(markers, file) <==>
            exists k, i: nat :: 0 <= k < |markers| && SpelledAt(markers[k], file, i)
  {
    if k :| 0 <= k < |markers| && Occurs(Lower(markers[k]), Lower(file)) {
      var i :| OccursAt(Lower(markers[k]), Lower(file), i);
      SpelledExactly(markers[k], file, i);
    }
    if k, i: nat :| 0 <= k < |markers| && SpelledAt(markers[k], file, i) {
      SpelledExactly(markers[k], file, i);
      assert Occurs(Lower(markers[k]), Lower(file));
    }
  }

  function Max(a: nat, b: nat): nat { if a < b then b else a }

  function Longest(markers: seq<bytes>): (n: nat)
    ensures forall k :: 0 <= k < |markers| ==> |markers[k]| <= n
  {
    if markers == [] then 0 else Max(|markers[0]|, Longest(markers[1..]))
  }

  /** Python's `s[-n:]`, which is the whole string when `n` is zero or exceeds the length. */
  function LastBytes(s: bytes, n: nat): bytes {
    if n == 0 || n >= |s| then s else s[|s| - n..]
  }

  function Flatten(blocks: seq<bytes>): bytes {
    if blocks == [] then [] else Flatten(blocks[..|blocks| - 1]) + blocks[|blocks| - 1]
  }

  lemma LowerConcat(a: bytes, b: bytes)
    ensures Lower(a + b) == Lower(a) + Lower(b)
  {
  }

  lemma LowerTwice(a: bytes)
    ensures Lower(Lower(a)) == Lower(a)
  {
  }

  /** A suffix that keeps the last `k` bytes, or everything. */
  ghost predicate KeepsTail(carry: bytes, seen: bytes, k: nat) {
    exists j :: 0 <= j <= |seen| && carry == seen[j..] && (j == 0 || |carry| >= k)
  }

  lemma OccursShifted(m: bytes, s: bytes, j: nat, i: nat)
    requires j <= |s|
    ensures OccursAt(m, s[j..], i) <==> OccursAt(m, s, i + j)
  {
    if i + j + |m| <= |s| {
      assert s[j..][i..i + |m|] == s[i + j..i + j + |m|];
    }
  }

  lemma OccursInPrefix(m: bytes, seen: bytes, block: bytes, i: int)
    requires OccursAt(m, seen + block, i) && i + |m| <= |seen|
    ensures OccursAt(m, seen, i)
  {
    assert (seen + block)[i..i + |m|] == seen[i..i + |m|];
  }

  /** An occurrence that ends in the new block starts inside the carry. */
  lemma OccursInCarry(m: bytes, seen: bytes, carry: bytes, block: bytes)
    requires m != [] && KeepsTail(carry, seen, |m| - 1) && !Occurs(m, seen)
    ensures Occurs(m, seen + block) <==> Occurs(m, carry + block)
  {
    var j :| 0 <= j <= |seen| && carry == seen[j..] && (j == 0 || |carry| >= |m| - 1);
    var whole := seen + block;
    assert whole[j..] == carry + block;
    if i :| OccursAt(m, whole, i) {
      if i + |m| <= |seen| {
        OccursInPrefix(m, seen, block, i);
      }
      OccursShifted(m, whole, j, i - j);
    }
    if i :| OccursAt(m, whole[j..], i) {
      OccursShifted(m, whole, j, i);
    }
  }

  lemma LastBytesKeepsTail(s: bytes, carry: bytes, seen: bytes, n: nat)
    requires KeepsTail(s, seen, n) && carry == LastBytes(s, n)
    ensures KeepsTail(carry, seen, n)
  {
    var j :| 0 <= j <= |seen| && s == seen[j..] && (j == 0 || |s| >= n);
    if n != 0 && n < |s| {
      assert carry == seen[|seen| - n..];
    }
  }

  lemma KeepsTailWeaken(carry: bytes, seen: bytes, n: nat, k: nat)
    requires KeepsTail(carry, seen, n) && k <= n
    ensures KeepsTail(carry, seen, k)
  {
  }

  lemma KeepsTailAppend(carry: bytes, seen: bytes, block: bytes, n: nat)
    requires KeepsTail(carry, seen, n)
    ensures KeepsTail(carry + block, seen + block, n)
  {
    var j :| 0 <= j <= |seen| && carry == seen[j..] && (j == 0 || |carry| >= n);
    assert carry + block == (seen + block)[j..];
  }

  /** One pass of the markers over the searchable bytes decides the whole prefix. */
  lemma BlockDecides(markers: seq<bytes>, seen: bytes, carry: bytes, block: bytes)
    requires forall k :: 0 <= k < |markers| ==> markers[k] != []
    requires !Tainted(markers, seen)
    requires KeepsTail(carry, Lower(seen), if markers == [] then 0 else Longest(markers) - 1)
    ensures Tainted(markers, seen + block)
       <==> exists k :: 0 <= k < |markers| && Occurs(Lower(markers[k]), Lower(carry + block))
  {
    LowerConcat(seen, block);
    LowerConcat(carry, block);
    CarryIsLower(carry, seen, if markers == [] then 0 else Longest(markers) - 1);
    forall k | 0 <= k < |markers|
      ensures Occurs(Lower(markers[k]), Lower(seen + block)) <==> Occurs(Lower(markers[k]), Lower(carry + block))
    {
      KeepsTailWeaken(carry, Lower(seen), Longest(markers) - 1, |markers[k]| - 1);
      OccursInCarry(Lower(markers[k]), Lower(seen), carry, Lower(block));
    }
  }

  lemma CarryIsLower(carry: bytes, seen: bytes, n: nat)
    requires KeepsTail(carry, Lower(seen), n)
    ensures Lower(carry) == carry
  {
    LowerTwice(seen);
    var j :| 0 <= j <= |seen| && carry == Lower(seen)[j..] && (j == 0 || |carry| >= n);
    forall i | 0 <= i < |carry| ensures Lower(carry)[i] == carry[i] {
      assert carry[i] == Lower(seen)[i + j] == Lower(Lower(seen))[i + j];
    }
  }

  /** Taint in a prefix is taint in the file. */
  lemma TaintGrows(markers: seq<bytes>, seen: bytes, more: bytes)
    requires Tainted(markers, seen)
    ensures Tainted(markers, seen + more)
  {
    LowerConcat(seen, more);
    var k :| 0 <= k < |markers| && Occurs(Lower(markers[k]), Lower(seen));
    var i :| OccursAt(Lower(markers[k]), Lower(seen), i);
    assert OccursAt(Lower(markers[k]), Lower(seen) + Lower(more), i);
  }

  lemma {:induction false} FlattenPrefix(blocks: seq<bytes>, n: nat) returns (rest: bytes)
    requires n <= |blocks|
    ensures Flatten(blocks) == Flatten(blocks[..n]) + rest
    decreases |blocks| - n
  {
    if n == |blocks| {
      assert blocks[..n] == blocks;
      rest := [];
    } else {
      rest := FlattenPrefix(blocks, n + 1);
      assert blocks[..n + 1][..n] == blocks[..n];
      rest := blocks[n] + rest;
    }
  }

  /** `needle in haystack`, by trying every offset. */
  method Contains(needle: bytes, haystack: bytes) returns (found: bool)
    ensures found <==> Occurs(needle, haystack)
  {
    var i := 0;
    while i + |needle| <= |haystack|
      invariant 0 <= i
      invariant forall j :: 0 <= j < i ==> !OccursAt(needle, haystack, j)
      decreases |haystack| - i
    {
      if haystack[i..i + |needle|] == needle {
        assert OccursAt(needle, haystack, i);
        return true;
      }
      i := i + 1;
    }
    found := false;
  }

  /**
   The read loop over the blocks of a file; `read` returns an empty block only at
   the end. It refuses exactly the files in which some marker occurs, wherever the
   block boundaries fall.
   */
  method ScanForMarkers(markers: seq<bytes>, blocks: seq<bytes>) returns (refused: bool)
    requires markers != [] && forall k :: 0 <= k < |markers| ==> markers[k] != []
    requires forall k :: 0 <= k < |blocks| ==> blocks[k] != []
    ensures refused <==> Tainted(markers, Flatten(blocks))
  {
    var longest := Longest(markers);
    assert longest >= |markers[0]|;
    var carry: bytes := [];
    var n := 0;
    ghost var seen: bytes := [];
    assert Lower(seen)[0..] == carry;
    assert !Tainted(markers, seen) by {
      forall k | 0 <= k < |markers| ensures !Occurs(Lower(markers[k]), Lower(seen)) {}
    }
    while n < |blocks|
      invariant 0 <= n <= |blocks|
      invariant seen == Flatten(blocks[..n]) && !Tainted(markers, seen)
      invariant KeepsTail(carry, Lower(seen), longest - 1)
    {
      var block := blocks[n];
      var searchable := Lower(carry + block);
      BlockDecides(markers, seen, carry, block);
      assert blocks[..n + 1][..n] == blocks[..n];
      assert Flatten(blocks[..n + 1]) == seen + block;
      for k := 0 to |markers|
        invariant forall j :: 0 <= j < k ==> !Occurs(Lower(markers[j]), searchable)
      {
        var hit := Contains(Lower(markers[k]), searchable);
        if hit {
          var rest := FlattenPrefix(blocks, n + 1);
          TaintGrows(markers, seen + block, rest);
          return true;
        }
      }
      CarryIsLower(carry, seen, longest - 1);
      LowerConcat(carry, block);
      LowerConcat(seen, block);
      KeepsTailAppend(carry, Lower(seen), Lower(block), longest - 1);
      LastBytesKeepsTail(searchable, LastBytes(searchable, longest - 1), Lower(seen + block), longest - 1);
      carry := LastBytes(searchable, longest - 1);
      seen := seen + block;
      n := n + 1;
    }
    assert blocks[..n] == blocks;
    refused := false;
  }

  /** The markers of the QA shell. */
  const QA_MARKERS: seq<bytes> := [
    AsciiBytes("discord-qa-shell"),
    AsciiBytes("discord-qa-shell-v1"),
    AsciiBytes("send_native_discord_qa_atomic_text"),
    AsciiBytes("discord-qa-send-stage-receipt.json"),
    AsciiBytes("osl-discord-qa-send-stage.txt")
  ]

  /** The division of a file into blocks is invisible: only its bytes decide. */
  method ScanExecutable(blocks: seq<bytes>) returns (refused: bool)
    requires forall k :: 0 <= k < |blocks| ==> blocks[k] != []
    ensures refused <==> Tainted(QA_MARKERS, Flatten(blocks))
  {
    refused := ScanForMarkers(QA_MARKERS, blocks);
  }
}
