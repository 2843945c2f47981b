/** Scanlines: rows behind a filter byte, each made from the row above; for any way of doing and undoing one row. */
module PngRows {
  import opened Wrappers
  import opened Bytes

  const LAST_FILTER := 4

  /** The filtered row, from filter, raw row and row above. */
  type Do = (byte, bytes, bytes) -> bytes

  /** The raw row, from filter, filtered row and row above; nothing for an unknown filter. */
  type Undo = (byte, bytes, bytes) -> Option<bytes>

  ghost predicate Undoes(undo: Undo, do: Do, n: nat) {
    forall f: byte, raw: bytes, p: bytes {:trigger do(f, raw, p)} ::
      f <= LAST_FILTER && |raw| == |p| == n ==> |do(f, raw, p)| == n && undo(f, do(f, raw, p), p) == Some(raw)
  }

  ghost predicate Redoes(undo: Undo, do: Do, n: nat) {
    forall f: byte, e: bytes, p: bytes {:trigger undo(f, e, p)} :: |e| == |p| == n ==>
      && (undo(f, e, p).Some? <==> f <= LAST_FILTER)
      && (undo(f, e, p).Some? ==> |undo(f, e, p).value| == n && do(f, undo(f, e, p).value, p) == e)
  }

  ghost predicate Rectangular(rows: seq<bytes>, rowBytes: nat) {
    forall i :: 0 <= i < |rows| ==> |rows[i]| == rowBytes
  }

  ghost predicate GoodFilters(filters: seq<byte>) {
    forall i :: 0 <= i < |filters| ==> filters[i] <= LAST_FILTER
  }

  /** The filter byte and filtered bytes of every row, each row made from the one above. */
  function Scanlines(do: Do, rows: seq<bytes>, filters: seq<byte>, previous: bytes): (z: bytes)
    requires |filters| == |rows|
    decreases |rows|
  {
    if rows == [] then []
    else [filters[0]] + do(filters[0], rows[0], previous) + Scanlines(do, rows[1..], filters[1..], rows[0])
  }

  /** A length of `height` scanlines, each of a filter byte and `n` others. */
  predicate Lines(length: int, n: nat, height: nat) {
    if height == 0 then length == 0 else length > n && Lines(length - n - 1, n, height - 1)
  }

  lemma OneMore(h: nat, n: nat)
    requires h > 0
    ensures h * n == (h - 1) * n + n && (h - 1) * n >= 0
  {
  }

  lemma {:induction false} LinesAre(length: int, n: nat, height: nat)
    ensures Lines(length, n, height) <==> length == height * (n + 1)
    decreases height
  {
    if height > 0 {
      OneMore(height, n + 1);
      LinesAre(length - n - 1, n, height - 1);
    }
  }

  /** The rows behind `height` scanlines, or nothing when one cannot be undone. */
  function Decode(undo: Undo, z: bytes, previous: bytes, height: nat): (r: Option<seq<bytes>>)
    requires Lines(|z|, |previous|, height)
    decreases height
  {
    if height == 0 then Some([])
    else
      var n := |previous|;
      var row := undo(z[0], z[1..n + 1], previous);
      if row.None? || |row.value| != n then None
      else
        var rest := Decode(undo, z[n + 1..], row.value, height - 1);
        if rest.None? then None else Some([row.value] + rest.value)
  }

  lemma {:induction false} DecodedRows(undo: Undo, z: bytes, previous: bytes, height: nat)
    requires Lines(|z|, |previous|, height)
    ensures var r := Decode(undo, z, previous, height);
            r.Some? ==> |r.value| == height && Rectangular(r.value, |previous|)
    decreases height
  {
    if height > 0 {
      var n := |previous|;
      var row := undo(z[0], z[1..n + 1], previous);
      if row.Some? && |row.value| == n { DecodedRows(undo, z[n + 1..], row.value, height - 1); }
    }
  }

  lemma Pieces(z: bytes, f: byte, a: bytes, b: bytes)
    requires z == [f] + a + b
    ensures z[0] == f && z[1..|a| + 1] == a && z[|a| + 1..] == b
  {
  }

  lemma {:induction false} ScanlinesLength(undo: Undo, do: Do, rows: seq<bytes>, filters: seq<byte>, previous: bytes)
    requires Undoes(undo, do, |previous|)
    requires Rectangular(rows, |previous|) && |filters| == |rows| && GoodFilters(filters)
    ensures Lines(|Scanlines(do, rows, filters, previous)|, |previous|, |rows|)
    decreases |rows|
  {
    if rows != [] {
      ScanlinesLength(undo, do, rows[1..], filters[1..], rows[0]);
    }
  }

  lemma DecodeLine(undo: Undo, z: bytes, previous: bytes, rest: bytes, rows: seq<bytes>)
    requires rows != [] && |rows[0]| == |previous| && Lines(|z|, |previous|, |rows|) && rest == z[|previous| + 1..]
    requires undo(z[0], z[1..|previous| + 1], previous) == Some(rows[0])
    requires Decode(undo, rest, rows[0], |rows| - 1) == Some(rows[1..])
    ensures Decode(undo, z, previous, |rows|) == Some(rows)
  {
    assert [rows[0]] + rows[1..] == rows;
  }

  /** Decoding undoes encoding, for every choice of filters row by row. */
  lemma {:induction false} DecodeInvertsScanlines(
      undo: Undo, do: Do, z: bytes, rows: seq<bytes>, filters: seq<byte>, previous: bytes)
    requires Undoes(undo, do, |previous|)
    requires Rectangular(rows, |previous|) && |filters| == |rows| && GoodFilters(filters)
    requires z == Scanlines(do, rows, filters, previous)
    ensures Lines(|z|, |previous|, |rows|) && Decode(undo, z, previous, |rows|) == Some(rows)
    decreases |rows|
  {
    ScanlinesLength(undo, do, rows, filters, previous);
    if rows != [] {
      var rest := Scanlines(do, rows[1..], filters[1..], rows[0]);
      Pieces(z, filters[0], do(filters[0], rows[0], previous), rest);
      DecodeInvertsScanlines(undo, do, rest, rows[1..], filters[1..], rows[0]);
      DecodeLine(undo, z, previous, rest, rows);
    }
  }

  lemma Whole(z: bytes, n: nat)
    requires n < |z|
    ensures z == [z[0]] + z[1..n + 1] + z[n + 1..]
  {
  }

  lemma ScanlinesCons(do: Do, row: bytes, rows: seq<bytes>, f: byte, filters: seq<byte>, previous: bytes)
    requires |rows| == |filters|
    ensures Scanlines(do, [row] + rows, [f] + filters, previous)
            == [f] + do(f, row, previous) + Scanlines(do, rows, filters, row)
  {
    assert ([row] + rows)[1..] == rows && ([f] + filters)[1..] == filters;
  }

  /** Whatever decodes is the encoding of the rows it decodes to, under the filters it names. */
  lemma {:induction false} ScanlinesInvertDecode(undo: Undo, do: Do, z: bytes, previous: bytes, height: nat)
    returns (filters: seq<byte>)
    requires Redoes(undo, do, |previous|) && Lines(|z|, |previous|, height)
    requires Decode(undo, z, previous, height).Some?
    ensures |filters| == height && GoodFilters(filters)
    ensures var rows := Decode(undo, z, previous, height).value;
            |rows| == height && z == Scanlines(do, rows, filters, previous)
    decreases height
  {
    if height == 0 {
      filters := [];
    } else {
      var rest := z[|previous| + 1..];
      var row := undo(z[0], z[1..|previous| + 1], previous).value;
      var more := ScanlinesInvertDecode(undo, do, rest, row, height - 1);
      filters := [z[0]] + more;
      Whole(z, |previous|);
      ScanlinesCons(do, row, Decode(undo, rest, row, height - 1).value, z[0], more, previous);
    }
  }

  /** Scanline `i`, of one filter byte and `n` others, starts with an unknown filter. */
  predicate UnknownFilter(z: bytes, n: nat, i: nat) { i * (n + 1) < |z| && z[i * (n + 1)] > LAST_FILTER }

  lemma NextLine(z: bytes, n: nat, i: nat)
    requires n < |z|
    ensures UnknownFilter(z, n, i + 1) <==> UnknownFilter(z[n + 1..], n, i)
  {
    OneMore(i + 1, n + 1);
  }

  lemma LaterLines(z: bytes, n: nat, tail: bytes, height: nat)
    requires n < |z| && tail == z[n + 1..] && height > 0 && z[0] <= LAST_FILTER
    ensures (exists i :: 0 <= i < height && UnknownFilter(z, n, i))
            <==> exists i :: 0 <= i < height - 1 && UnknownFilter(tail, n, i)
  {
    if i :| 0 <= i < height && UnknownFilter(z, n, i) {
      assert i > 0;
      NextLine(z, n, i - 1);
    }
    if i :| 0 <= i < height - 1 && UnknownFilter(tail, n, i) {
      NextLine(z, n, i);
    }
  }

  /** A decoding fails exactly when some scanline starts with an unknown filter. */
  lemma {:induction false} DecodeFails(undo: Undo, do: Do, z: bytes, previous: bytes, height: nat)
    requires Redoes(undo, do, |previous|) && Lines(|z|, |previous|, height)
    ensures Decode(undo, z, previous, height).None? <==>
            exists i :: 0 <= i < height && UnknownFilter(z, |previous|, i)
    decreases height
  {
    if height > 0 {
      var n := |previous|;
      var row := undo(z[0], z[1..n + 1], previous);
      if row.None? {
        assert UnknownFilter(z, n, 0);
      } else {
        DecodeFails(undo, do, z[n + 1..], row.value, height - 1);
        LaterLines(z, n, z[n + 1..], height);
      }
    }
  }
}

/** The five scanline filters of PNG sections 9.2 to 9.4, and their inverses. */
module PngFilters {
  import opened Wrappers
  import opened Bytes
  import opened PngRows

  function Distance(a: int, b: int): nat { if a < b then b - a else a - b }

  /** The neighbour nearest to left + up - upper left; ties go to left, then to up. */
  function Paeth(left: int, up: int, upperLeft: int): (r: int)
    ensures r == left || r == up || r == upperLeft
    ensures var p := left + up - upperLeft;
            && Distance(p, r) <= Distance(p, left)
            && Distance(p, r) <= Distance(p, up)
            && Distance(p, r) <= Distance(p, upperLeft)
            && (Distance(p, left) == Distance(p, r) ==> r == left)
            && (Distance(p, left) > Distance(p, r) == Distance(p, up) ==> r == up)
  {
    var p := left + up - upperLeft;
    if Distance(p, left) <= Distance(p, up) && Distance(p, left) <= Distance(p, upperLeft) then left
    else if Distance(p, up) <= Distance(p, upperLeft) then up
    else upperLeft
  }

  function Predict(filter: byte, left: byte, up: byte, upperLeft: byte): int
    requires filter <= LAST_FILTER
  {
    if filter == 0 then 0
    else if filter == 1 then left
    else if filter == 2 then up
    else if filter == 3 then (left as int + up) / 2
    else Paeth(left, up, upperLeft)
  }

  /** The prediction for the byte after `row`, given the row above. */
  function PredictNext(channels: nat, filter: byte, row: bytes, previous: bytes): int
    requires channels > 0 && filter <= LAST_FILTER && |row| < |previous|
  {
    var i := |row|;
    var inside := i >= channels;
    Predict(filter, if inside then row[i - channels] else 0, previous[i], if inside then previous[i - channels] else 0)
  }

  /** The filtered bytes of a row: each byte less its prediction from the raw bytes. */
  function Filter(channels: nat, filter: byte, raw: bytes, previous: bytes): (r: bytes)
    requires channels > 0 && filter <= LAST_FILTER && |raw| <= |previous|
    ensures |r| == |raw|
    decreases |raw|
  {
    if raw == [] then []
    else
      var before := raw[..|raw| - 1];
      Filter(channels, filter, before, previous)
      + [(raw[|raw| - 1] - PredictNext(channels, filter, before, previous)) % 256]
  }

  /** The raw bytes of a filtered row: each byte plus its prediction from the bytes decoded so far. */
  function Unfilter(channels: nat, filter: byte, encoded: bytes, previous: bytes): (r: bytes)
    requires channels > 0 && filter <= LAST_FILTER && |encoded| <= |previous|
    ensures |r| == |encoded|
    decreases |encoded|
  {
    if encoded == [] then []
    else
      var before := Unfilter(channels, filter, encoded[..|encoded| - 1], previous);
      before + [(encoded[|encoded| - 1] + PredictNext(channels, filter, before, previous)) % 256]
  }

  lemma Whole(v: byte, q: int)
    ensures (v + 256 * q) % 256 == v
  {
  }

  lemma Wraps(v: byte, p: int)
    ensures ((v - p) % 256 + p) % 256 == v
    ensures ((v + p) % 256 - p) % 256 == v
  {
    Whole(v, -((v - p) / 256));
    Whole(v, -((v + p) / 256));
  }

  lemma Snoc(s: bytes, b: byte)
    ensures (s + [b])[..|s + [b]| - 1] == s
  {
  }

  lemma {:induction false} UnfilterInvertsFilter(channels: nat, filter: byte, raw: bytes, previous: bytes)
    requires channels > 0 && filter <= LAST_FILTER && |raw| <= |previous|
    ensures Unfilter(channels, filter, Filter(channels, filter, raw, previous), previous) == raw
    decreases |raw|
  {
    if raw != [] {
      var before, v := raw[..|raw| - 1], raw[|raw| - 1];
      UnfilterInvertsFilter(channels, filter, before, previous);
      var p := PredictNext(channels, filter, before, previous);
      Snoc(Filter(channels, filter, before, previous), (v - p) % 256);
      Wraps(v, p);
    }
  }

  lemma {:induction false} FilterInvertsUnfilter(channels: nat, filter: byte, encoded: bytes, previous: bytes)
    requires channels > 0 && filter <= LAST_FILTER && |encoded| <= |previous|
    ensures Filter(channels, filter, Unfilter(channels, filter, encoded, previous), previous) == encoded
    decreases |encoded|
  {
    if encoded != [] {
      var before, v := encoded[..|encoded| - 1], encoded[|encoded| - 1];
      FilterInvertsUnfilter(channels, filter, before, previous);
      var r := Unfilter(channels, filter, before, previous);
      var p := PredictNext(channels, filter, r, previous);
      Snoc(r, (v + p) % 256);
      Wraps(v, p);
    }
  }

  /** The prediction for position `i`, from the bytes to the left and above. */
  function PredictAt(channels: nat, filter: byte, row: bytes, previous: bytes, i: nat): int
    requires channels > 0 && filter <= LAST_FILTER && i <= |row| && i < |previous|
  {
    var inside := i >= channels;
    Predict(filter, if inside then row[i - channels] else 0, previous[i], if inside then previous[i - channels] else 0)
  }

  lemma UnfilterStep(channels: nat, filter: byte, encoded: bytes, previous: bytes, i: nat, done: bytes)
    requires channels > 0 && filter <= LAST_FILTER && i < |encoded| && i < |previous|
    requires done == Unfilter(channels, filter, encoded[..i], previous)
    ensures Unfilter(channels, filter, encoded[..i + 1], previous)
            == done + [(encoded[i] + PredictAt(channels, filter, done, previous, i)) % 256]
  {
    assert encoded[..i + 1][..i] == encoded[..i];
  }

  /** The byte `channels` places to the left, or 0 at the start of the row. */
  function Left(row: bytes, channels: nat, i: nat): byte
    requires channels > 0 && i <= |row|
  {
    if i >= channels then row[i - channels] else 0
  }

  /** What each filter adds to a filtered byte, from the bytes to the left, above, and above to the left. */
  ghost predicate ByteUnfiltered(filter: byte, encoded: byte, left: byte, up: byte, upperLeft: byte, value: byte) {
    && (filter == 0 ==> value == encoded)
    && (filter == 1 ==> value == (encoded as int + left) % 256)
    && (filter == 2 ==> value == (encoded as int + up) % 256)
    && (filter == 3 ==> value == (encoded as int + (left as int + up) / 2) % 256)
    && (filter == 4 ==> value == (encoded as int + Paeth(left, up, upperLeft)) % 256)
  }

  /** The mirror image: what each filter takes away from a raw byte. */
  ghost predicate ByteFiltered(filter: byte, raw: byte, left: byte, up: byte, upperLeft: byte, value: byte) {
    && (filter == 0 ==> value == raw)
    && (filter == 1 ==> value == (raw as int - left) % 256)
    && (filter == 2 ==> value == (raw as int - up) % 256)
    && (filter == 3 ==> value == (raw as int - (left as int + up) / 2) % 256)
    && (filter == 4 ==> value == (raw as int - Paeth(left, up, upperLeft)) % 256)
  }

  ghost predicate IsUnfiltered(channels: nat, filter: byte, encoded: bytes, previous: bytes, row: bytes)
    requires channels > 0
  {
    && |row| == |encoded| <= |previous|
    && forall i :: 0 <= i < |row| ==>
         ByteUnfiltered(filter, encoded[i], Left(row, channels, i), previous[i], Left(previous, channels, i), row[i])
  }

  ghost predicate IsFiltered(channels: nat, filter: byte, raw: bytes, previous: bytes, row: bytes)
    requires channels > 0
  {
    && |row| == |raw| <= |previous|
    && forall i :: 0 <= i < |row| ==>
         ByteFiltered(filter, raw[i], Left(raw, channels, i), previous[i], Left(previous, channels, i), row[i])
  }

  lemma PredictAdds(filter: byte, encoded: byte, left: byte, up: byte, upperLeft: byte)
    requires filter <= LAST_FILTER
    ensures ByteUnfiltered(filter, encoded, left, up, upperLeft,
                           (encoded as int + Predict(filter, left, up, upperLeft)) % 256)
    ensures ByteFiltered(filter, encoded, left, up, upperLeft,
                         (encoded as int - Predict(filter, left, up, upperLeft)) % 256)
  {
  }

  /** A byte of the unfiltered row is the filtered byte plus its prediction from the row itself. */
  lemma {:induction false} UnfilterAt(channels: nat, filter: byte, encoded: bytes, previous: bytes, row: bytes, i: nat)
    requires channels > 0 && filter <= LAST_FILTER && |encoded| <= |previous| && i < |encoded|
    requires row == Unfilter(channels, filter, encoded, previous)
    ensures row[i]
            == (encoded[i] + Predict(filter, Left(row, channels, i), previous[i], Left(previous, channels, i))) % 256
    decreases |encoded|
  {
    var n := |encoded| - 1;
    var before := Unfilter(channels, filter, encoded[..n], previous);
    assert row[..n] == before;
    if i < n {
      UnfilterAt(channels, filter, encoded[..n], previous, before, i);
      assert row[i] == before[i] && (i >= channels ==> row[i - channels] == before[i - channels]);
    }
  }

  lemma {:induction false} FilterAt(channels: nat, filter: byte, raw: bytes, previous: bytes, row: bytes, i: nat)
    requires channels > 0 && filter <= LAST_FILTER && |raw| <= |previous| && i < |raw|
    requires row == Filter(channels, filter, raw, previous)
    ensures row[i]
            == (raw[i] - Predict(filter, Left(raw, channels, i), previous[i], Left(previous, channels, i))) % 256
    decreases |raw|
  {
    var n := |raw| - 1;
    var before := Filter(channels, filter, raw[..n], previous);
    assert row[..n] == before;
    if i < n { FilterAt(channels, filter, raw[..n], previous, before, i); }
  }

  lemma UnfilterIs(channels: nat, filter: byte, encoded: bytes, previous: bytes, row: bytes)
    requires channels > 0 && filter <= LAST_FILTER && |encoded| <= |previous|
    requires row == Unfilter(channels, filter, encoded, previous)
    ensures IsUnfiltered(channels, filter, encoded, previous, row)
  {
    forall i | 0 <= i < |row|
      ensures ByteUnfiltered(
                filter, encoded[i], Left(row, channels, i), previous[i], Left(previous, channels, i), row[i])
    {
      UnfilterAt(channels, filter, encoded, previous, row, i);
      PredictAdds(filter, encoded[i], Left(row, channels, i), previous[i], Left(previous, channels, i));
    }
  }

  lemma FilterIs(channels: nat, filter: byte, raw: bytes, previous: bytes, row: bytes)
    requires channels > 0 && filter <= LAST_FILTER && |raw| <= |previous|
    requires row == Filter(channels, filter, raw, previous)
    ensures IsFiltered(channels, filter, raw, previous, row)
  {
    forall i | 0 <= i < |row|
      ensures ByteFiltered(filter, raw[i], Left(raw, channels, i), previous[i], Left(previous, channels, i), row[i])
    {
      FilterAt(channels, filter, raw, previous, row, i);
      PredictAdds(filter, raw[i], Left(raw, channels, i), previous[i], Left(previous, channels, i));
    }
  }

  method UnfilterRow(channels: nat, filter: byte, encoded: bytes, previous: bytes) returns (r: Option<bytes>)
    requires channels > 0 && |encoded| == |previous|
    ensures filter <= LAST_FILTER ==> r == Some(Unfilter(channels, filter, encoded, previous))
    ensures filter <= 4 ==> r.Some? && IsUnfiltered(channels, filter, encoded, previous, r.value)
    ensures filter > 4 ==> r == if encoded == [] then Some([]) else None
  {
    var decoded := new byte[|encoded|];
    for index := 0 to |encoded|
      invariant index > 0 ==> filter <= LAST_FILTER
      invariant filter <= LAST_FILTER ==> decoded[..index] == Unfilter(channels, filter, encoded[..index], previous)
    {
      var left: byte := if index >= channels then decoded[index - channels] else 0;
      var up := previous[index];
      var upperLeft: byte := if index >= channels then previous[index - channels] else 0;
      if filter > LAST_FILTER {
        return None;
      }
      UnfilterStep(channels, filter, encoded, previous, index, decoded[..index]);
      decoded[index] := (encoded[index] + Predict(filter, left, up, upperLeft)) % 256;
      assert decoded[..index + 1] == decoded[..index] + [decoded[index]];
    }
    assert encoded[..|encoded|] == encoded && decoded[..] == decoded[..|encoded|];
    if filter <= LAST_FILTER { UnfilterIs(channels, filter, encoded, previous, decoded[..]); }
    return Some(decoded[..]);
  }

  lemma FilterStep(channels: nat, filter: byte, raw: bytes, previous: bytes, i: nat)
    requires channels > 0 && filter <= LAST_FILTER && i < |raw| && i < |previous|
    ensures Filter(channels, filter, raw[..i + 1], previous)
            == Filter(channels, filter, raw[..i], previous)
               + [(raw[i] - PredictAt(channels, filter, raw, previous, i)) % 256]
  {
    assert raw[..i + 1][..i] == raw[..i];
    assert PredictAt(channels, filter, raw, previous, i) == PredictNext(channels, filter, raw[..i], previous);
  }

  method FilterRow(channels: nat, filter: byte, raw: bytes, previous: bytes) returns (r: Option<bytes>)
    requires channels > 0
    ensures |raw| > |previous| ==> r.None?
    ensures |raw| <= |previous| && filter <= LAST_FILTER ==> r == Some(Filter(channels, filter, raw, previous))
    ensures |raw| <= |previous| && filter <= 4 ==> r.Some? && IsFiltered(channels, filter, raw, previous, r.value)
    ensures filter > 4 ==> r == if raw == [] then Some([]) else None
  {
    var encoded := new byte[|raw|];
    for index := 0 to |raw|
      invariant index <= |previous| && (index > 0 ==> filter <= LAST_FILTER)
      invariant filter <= LAST_FILTER ==> encoded[..index] == Filter(channels, filter, raw[..index], previous)
    {
      if index >= |previous| {
        return None;
      }
      var left: byte := if index >= channels then raw[index - channels] else 0;
      var up := previous[index];
      var upperLeft: byte := if index >= channels then previous[index - channels] else 0;
      if filter > LAST_FILTER {
        return None;
      }
      FilterStep(channels, filter, raw, previous, index);
      encoded[index] := (raw[index] - Predict(filter, left, up, upperLeft)) % 256;
      assert encoded[..index + 1] == encoded[..index] + [encoded[index]];
    }
    assert raw[..|raw|] == raw && encoded[..] == encoded[..|raw|];
    if filter <= LAST_FILTER { FilterIs(channels, filter, raw, previous, encoded[..]); }
    return Some(encoded[..]);
  }

  // ---- Filters as functions of a row and the row above ----

  function DoRow(channels: nat, filter: byte, raw: bytes, previous: bytes): bytes {
    if channels > 0 && filter <= LAST_FILTER && |raw| <= |previous| then Filter(channels, filter, raw, previous) else []
  }

  function UndoRow(channels: nat, filter: byte, encoded: bytes, previous: bytes): Option<bytes> {
    if channels > 0 && filter <= LAST_FILTER && |encoded| <= |previous|
    then Some(Unfilter(channels, filter, encoded, previous)) else None
  }

  function Doing(channels: nat): Do { (f, raw, p) => DoRow(channels, f, raw, p) }
  function Undoing(channels: nat): Undo { (f, e, p) => UndoRow(channels, f, e, p) }

  /** Every row survives every filter, and every filtered row is the filtering of what it stands for. */
  lemma FiltersAreInverse(channels: nat, n: nat)
    requires channels > 0
    ensures Undoes(Undoing(channels), Doing(channels), n) && Redoes(Undoing(channels), Doing(channels), n)
  {
    forall f: byte, raw: bytes, p: bytes | f <= LAST_FILTER && |raw| == |p| == n
      ensures |DoRow(channels, f, raw, p)| == n && UndoRow(channels, f, DoRow(channels, f, raw, p), p) == Some(raw)
    {
      UnfilterInvertsFilter(channels, f, raw, p);
    }
    forall f: byte, e: bytes, p: bytes | f <= LAST_FILTER && |e| == |p| == n
      ensures DoRow(channels, f, UndoRow(channels, f, e, p).value, p) == e
    {
      FilterInvertsUnfilter(channels, f, e, p);
    }
  }
}
