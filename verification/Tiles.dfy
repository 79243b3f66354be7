/**
  Splitting a render job into tiles and putting the results together: the pixel colour
  is a parameter, everything else is as in the benchmark.
*/
module Tiles {
  import opened EvenSplit
  import opened JsInt

  datatype Slice = Slice(yStart: nat, yEnd: nat)

  datatype TileResult = TileResult(checksum: nat, pixels: int)

  /** The packed colour of a pixel, a 32-bit number; it depends on the coordinates and the render settings only. */
  type Colour = (nat, nat) -> nat

  // ----- one full render -----

  /** The sum of the first n pixels of row y. */
  function RowSum(c: Colour, y: nat, n: nat): nat {
    if n == 0 then 0 else RowSum(c, y, n - 1) + ToUint32(c(n - 1, y))
  }

  /** The sum of the rows from a to b. */
  function RowsSum(c: Colour, width: nat, a: nat, b: nat): nat {
    if b <= a then 0 else RowsSum(c, width, a, b - 1) + RowSum(c, b - 1, width)
  }

  lemma {:induction false} RowsSplit(c: Colour, width: nat, a: nat, b: nat, e: nat)
    requires a <= b <= e
    ensures RowsSum(c, width, a, e) == RowsSum(c, width, a, b) + RowsSum(c, width, b, e)
    decreases e
  {
    if b < e {
      RowsSplit(c, width, a, b, e - 1);
    }
  }

  lemma ModAdd(a: nat, b: nat)
    ensures ToUint32(ToUint32(a) + b) == ToUint32(a + b) && ToUint32(a + ToUint32(b)) == ToUint32(a + b)
  {
  }

  lemma PixelRows(width: nat, rows: nat)
    ensures (rows + 1) * width == rows * width + width
  {
  }

  /** The loop over the pixels of a tile: a 32-bit checksum and a count. */
  method RaytraceTile(c: Colour, width: nat, yStart: nat, yEnd: nat) returns (r: TileResult)
    requires yStart <= yEnd
    ensures r == TileResult(ToUint32(RowsSum(c, width, yStart, yEnd)), (yEnd - yStart) * width)
  {
    var checksum, pixels: nat := 0, 0;
    var y := yStart;
    while y < yEnd
      invariant yStart <= y <= yEnd
      invariant checksum == ToUint32(RowsSum(c, width, yStart, y)) && pixels == (y - yStart) * width
    {
      ghost var before := RowsSum(c, width, yStart, y);
      PixelRows(width, y - yStart);
      hide ToUint32;
      var x := 0;
      while x < width
        invariant x <= width
        invariant checksum == ToUint32(before + RowSum(c, y, x)) && pixels == (y - yStart) * width + x
      {
        ModAdd(before + RowSum(c, y, x), ToUint32(c(x, y)));
        checksum := ToUint32(checksum + ToUint32(c(x, y)));
        pixels := pixels + 1;
        x := x + 1;
      }
      y := y + 1;
    }
    r := TileResult(checksum, pixels);
  }

  // ----- slices -----

  /** Non-empty slices, one after the other, from a to b exactly. */
  ghost predicate Covers(s: seq<Slice>, a: nat, b: nat) {
    if s == [] then a == b
    else
      var last := s[|s| - 1];
      last.yStart < last.yEnd == b && Covers(s[..|s| - 1], a, last.yStart)
  }

  lemma CoversSnoc(s: seq<Slice>, a: nat, b: nat, e: nat)
    requires Covers(s, a, b) && b < e
    ensures Covers(s + [Slice(b, e)], a, e)
  {
    assert (s + [Slice(b, e)])[..|s|] == s;
  }

  /** Every row is in exactly one slice. */
  lemma {:induction false} CoveredOnce(s: seq<Slice>, a: nat, b: nat, y: nat) returns (i: nat)
    requires Covers(s, a, b) && a <= y < b
    ensures i < |s| && s[i].yStart <= y < s[i].yEnd
    ensures forall j :: 0 <= j < |s| && s[j].yStart <= y < s[j].yEnd ==> j == i
  {
    var n := |s| - 1;
    InRange(s[..n], a, s[n].yStart);
    if y >= s[n].yStart {
      i := n;
      assert forall j :: 0 <= j < n ==> s[j] == s[..n][j];
    } else {
      i := CoveredOnce(s[..n], a, s[n].yStart, y);
      assert forall j :: 0 <= j < n ==> s[j] == s[..n][j];
    }
  }

  lemma {:induction false} InRange(s: seq<Slice>, a: nat, b: nat)
    requires Covers(s, a, b)
    ensures a <= b && forall j :: 0 <= j < |s| ==> a <= s[j].yStart < s[j].yEnd <= b
  {
    if s != [] {
      InRange(s[..|s| - 1], a, s[|s| - 1].yStart);
      assert forall j :: 0 <= j < |s| - 1 ==> s[j] == s[..|s| - 1][j];
    }
  }

  /** No slice has more rows than this, and the first one has as many. */
  ghost predicate Largest(out: seq<Slice>, rows: nat) {
    && (forall s :: s in out ==> s.yEnd - s.yStart <= rows)
    && (if out == [] then rows == 0 else out[0].yEnd - out[0].yStart == rows)
  }

  /** Even slices for a number of workers. */
  method SplitRows(height: nat, workers: nat) returns (out: seq<Slice>)
    requires workers >= 1
    ensures Covers(out, 0, height) && |out| == Smaller(height, workers)
    ensures forall s :: s in out ==> height / workers <= s.yEnd - s.yStart <= height / workers + 1
    ensures forall i, j :: 0 <= i < j < |out| ==> out[j].yEnd - out[j].yStart <= out[i].yEnd - out[i].yStart
    ensures Largest(out, ShareOf(height, workers, 0))
  {
    out := [];
    var base := height / workers;
    var rem := height % workers;
    ghost var extra := rem;
    assert forall k: nat :: ShareOf(height, workers, k) == base + if k < extra then 1 else 0;
    var cur: nat := 0;
    var i := 0;
    assert Covers(out, 0, 0);
    StartNext(height, workers, 0);
    hide StartOf, ShareOf, Covers, Largest;
    while i < workers
      invariant i <= workers && rem == (if i < extra then extra - i else 0)
      invariant cur == StartOf(height, workers, i) && Covers(out, 0, cur)
      invariant |out| == Smaller(i, Smaller(height, workers))
      invariant forall k :: 0 <= k < |out| ==> out[k].yEnd - out[k].yStart == ShareOf(height, workers, k)
    {
      StartNext(height, workers, i);
      SharesFall(height, workers, i);
      var rows := base + (if rem > 0 then 1 else 0);
      if rem > 0 {
        rem := rem - 1;
      }
      var next := cur + rows;
      if rows > 0 {
        CoversSnoc(out, 0, cur, next);
        out := out + [Slice(cur, next)];
      }
      cur := next;
      i := i + 1;
    }
    SharesFall(height, workers, 0);
    SlicesFall(out, height, workers);
    FirstLargest(out, ShareOf(height, workers, 0));
  }

  lemma SlicesFall(out: seq<Slice>, height: nat, workers: nat)
    requires workers >= 1 && |out| <= workers
    requires forall k :: 0 <= k < |out| ==> out[k].yEnd - out[k].yStart == ShareOf(height, workers, k)
    ensures forall s :: s in out ==> height / workers <= s.yEnd - s.yStart <= height / workers + 1
    ensures forall i, j :: 0 <= i < j < |out| ==> out[j].yEnd - out[j].yStart <= out[i].yEnd - out[i].yStart
    ensures forall s :: s in out ==> s.yEnd - s.yStart <= ShareOf(height, workers, 0)
  {
    forall k | 0 <= k < |out|
      ensures height / workers <= out[k].yEnd - out[k].yStart <= height / workers + 1
      ensures out[k].yEnd - out[k].yStart <= ShareOf(height, workers, 0)
      ensures forall j :: k < j < |out| ==> out[j].yEnd - out[j].yStart <= out[k].yEnd - out[k].yStart
    {
      SharesFall(height, workers, k);
      SharesFall(height, workers, 0);
    }
    hide ShareOf;
  }

  lemma FirstLargest(out: seq<Slice>, rows: nat)
    requires forall s :: s in out ==> s.yEnd - s.yStart <= rows
    requires if rows == 0 then out == [] else out != [] && out[0].yEnd - out[0].yStart == rows
    ensures Largest(out, rows)
  {
  }

  /** Slices of a fixed size, the last one cut. */
  method SplitRowsByTile(height: nat, tileSize: nat) returns (out: seq<Slice>)
    requires tileSize >= 1
    ensures Covers(out, 0, height)
    ensures forall s :: s in out ==> s.yEnd - s.yStart <= tileSize
    ensures forall i :: 0 <= i < |out| - 1 ==> out[i].yEnd - out[i].yStart == tileSize
    ensures Largest(out, Smaller(height, tileSize))
  {
    out := [];
    var yStart: nat := 0;
    hide Covers;
    assert Covers([], 0, 0) by { NoSlices(); }
    while yStart < height
      invariant Covers(out, 0, if yStart <= height then yStart else height)
      invariant forall k :: 0 <= k < |out| ==> 0 <= out[k].yEnd - out[k].yStart <= Smaller(height, tileSize)
      invariant forall k :: 0 <= k < |out| && (k < |out| - 1 || yStart <= height) ==> out[k].yEnd - out[k].yStart == tileSize
      invariant if yStart == 0 then out == [] else out != [] && out[0].yEnd - out[0].yStart == Smaller(height, tileSize)
      decreases height - yStart
    {
      var yEnd := if height < yStart + tileSize then height else yStart + tileSize;
      CoversSnoc(out, 0, yStart, yEnd);
      out := out + [Slice(yStart, yEnd)];
      yStart := yStart + tileSize;
    }
  }

  lemma NoSlices()
    ensures Covers([], 0, 0)
  {
  }

  // ----- putting the parts together -----

  function ChecksumsOf(parts: seq<TileResult>): nat {
    if parts == [] then 0 else ToUint32(ChecksumsOf(parts[..|parts| - 1]) + ToUint32(parts[|parts| - 1].checksum))
  }

  /** The count adds 32-bit signed numbers. */
  function PixelsOf(parts: seq<TileResult>): int {
    if parts == [] then 0 else PixelsOf(parts[..|parts| - 1]) + ToInt32(parts[|parts| - 1].pixels)
  }

  /** The parts' 32-bit sum and the count of their pixels. */
  method Aggregate(parts: seq<TileResult>) returns (r: TileResult)
    ensures r == TileResult(ChecksumsOf(parts), PixelsOf(parts))
  {
    var checksum, pixels := 0, 0;
    var i := 0;
    hide ToUint32, ToInt32;
    while i < |parts|
      invariant i <= |parts| && checksum == ChecksumsOf(parts[..i]) && pixels == PixelsOf(parts[..i])
    {
      assert parts[..i + 1][..i] == parts[..i];
      checksum := ToUint32(checksum + ToUint32(parts[i].checksum));
      pixels := pixels + ToInt32(parts[i].pixels);
      i := i + 1;
    }
    assert parts[..i] == parts;
    r := TileResult(checksum, pixels);
  }

  function ResultOf(c: Colour, width: nat, s: Slice): TileResult
    requires s.yStart <= s.yEnd
  {
    TileResult(ToUint32(RowsSum(c, width, s.yStart, s.yEnd)), (s.yEnd - s.yStart) * width)
  }

  ghost predicate ResultsOf(c: Colour, width: nat, slices: seq<Slice>, parts: seq<TileResult>) {
    |parts| == |slices| && forall i :: 0 <= i < |slices| ==> slices[i].yStart <= slices[i].yEnd && parts[i] == ResultOf(c, width, slices[i])
  }

  lemma RowsCount(width: nat, a: nat, b: nat, e: nat)
    requires a <= b <= e
    ensures (e - a) * width == (b - a) * width + (e - b) * width
    ensures (e - b) * width >= 0
  {
  }

  /** All slices but the last one, and the last one. */
  lemma LastSlice(c: Colour, width: nat, slices: seq<Slice>, parts: seq<TileResult>, a: nat, b: nat)
    requires Covers(slices, a, b) && ResultsOf(c, width, slices, parts) && slices != []
    ensures var n := |slices| - 1; var mid := slices[n].yStart;
      && |parts| == n + 1 && slices[n].yEnd == b && mid < b && Covers(slices[..n], a, mid) && ResultsOf(c, width, slices[..n], parts[..n])
      && parts[n] == ResultOf(c, width, slices[n])
  {
    var n := |slices| - 1;
    assert forall i :: 0 <= i < n ==> slices[..n][i] == slices[i] && parts[..n][i] == parts[i];
  }

  /** Whatever the slices, the checksums of the parts add up to that of one full render. */
  lemma {:induction false} ChecksumsAddUp(c: Colour, width: nat, slices: seq<Slice>, parts: seq<TileResult>, a: nat, b: nat)
    requires Covers(slices, a, b) && ResultsOf(c, width, slices, parts)
    ensures a <= b && ChecksumsOf(parts) == ToUint32(RowsSum(c, width, a, b))
    decreases slices
  {
    if slices != [] {
      var n := |slices| - 1;
      var mid := slices[n].yStart;
      LastSlice(c, width, slices, parts, a, b);
      assert ChecksumsOf(parts) == ToUint32(ChecksumsOf(parts[..n]) + ToUint32(parts[n].checksum));
      hide ToUint32, RowsSum, Covers, ResultsOf, ChecksumsOf;
      ChecksumsAddUp(c, width, slices[..n], parts[..n], a, mid);
      RowsSplit(c, width, a, mid, b);
      ModSum(RowsSum(c, width, a, mid), RowsSum(c, width, mid, b));
    }
  }

  /** Sums of sums modulo 2^32; the second one was reduced twice. */
  lemma ModSum(a: nat, b: nat)
    ensures ToUint32(ToUint32(a) + ToUint32(ToUint32(b))) == ToUint32(a + b)
  {
    ModAdd(a, b);
    ModAdd(0, b);
    ModAdd(ToUint32(a), b);
    hide ToUint32;
  }

  lemma SignedAtMost(n: nat)
    ensures ToInt32(n) <= n && (ToInt32(n) == n <==> n < TWO31)
  {
  }

  /** The pixel count is that of one full render exactly when every part's count is a 32-bit signed number. */
  lemma {:induction false} PixelsAddUp(c: Colour, width: nat, slices: seq<Slice>, parts: seq<TileResult>, a: nat, b: nat)
    requires Covers(slices, a, b) && ResultsOf(c, width, slices, parts)
    ensures a <= b && PixelsOf(parts) <= (b - a) * width
    ensures PixelsOf(parts) == (b - a) * width <==> forall p :: p in parts ==> p.pixels < TWO31
    decreases slices
  {
    if slices != [] {
      var n := |slices| - 1;
      var mid := slices[n].yStart;
      LastSlice(c, width, slices, parts, a, b);
      assert PixelsOf(parts) == PixelsOf(parts[..n]) + ToInt32(parts[n].pixels);
      assert parts == parts[..n] + [parts[n]];
      assert parts[n].pixels == (b - mid) * width;
      hide ToUint32, ToInt32, RowsSum, Covers, ResultsOf, PixelsOf, ResultOf;
      PixelsAddUp(c, width, slices[..n], parts[..n], a, mid);
      RowsCount(width, a, mid, b);
      SignedAtMost((b - mid) * width);
    }
  }

  /** The rows of the largest slice of a job. */
  function MostRows(height: nat, tileSize: nat, workers: nat): nat
    requires tileSize >= 1 || workers >= 1
  {
    if tileSize == 0 then ShareOf(height, workers, 0) else if height < tileSize then height else tileSize
  }

  /** The slices of a job: tiles of a size if one is given, else one slice for each worker. */
  method SlicesFor(height: nat, tileSize: nat, workers: nat) returns (slices: seq<Slice>)
    requires tileSize >= 1 || workers >= 1
    ensures Covers(slices, 0, height) && Largest(slices, MostRows(height, tileSize, workers))
  {
    if tileSize > 0 {
      slices := SplitRowsByTile(height, tileSize);
    } else {
      slices := SplitRows(height, workers);
    }
  }

  method RenderSlices(c: Colour, width: nat, height: nat, slices: seq<Slice>) returns (parts: seq<TileResult>)
    requires Covers(slices, 0, height)
    ensures ResultsOf(c, width, slices, parts)
  {
    InRange(slices, 0, height);
    hide Covers, RowsSum, ToUint32;
    parts := [];
    var i := 0;
    while i < |slices|
      invariant i <= |slices| == |slices| && |parts| == i
      invariant forall k :: 0 <= k < i ==> parts[k] == ResultOf(c, width, slices[k])
    {
      var part := RaytraceTile(c, width, slices[i].yStart, slices[i].yEnd);
      parts := parts + [part];
      i := i + 1;
    }
  }

  /** The parts' counts are small exactly when that of the largest slice is. */
  lemma LargestPart(c: Colour, width: nat, slices: seq<Slice>, parts: seq<TileResult>, rows: nat)
    requires ResultsOf(c, width, slices, parts) && Largest(slices, rows)
    ensures (forall p :: p in parts ==> p.pixels < TWO31) <==> rows * width < TWO31
  {
    hide RowsSum, ToUint32;
    if rows * width < TWO31 {
      forall p | p in parts ensures p.pixels < TWO31 {
        var i :| 0 <= i < |parts| && parts[i] == p;
        assert slices[i] in slices;
        MoreRows(slices[i].yEnd - slices[i].yStart, rows, width);
      }
    }
    if slices != [] {
      assert parts[0] in parts && parts[0].pixels == rows * width;
    }
  }

  lemma MoreRows(a: nat, b: nat, width: nat)
    requires a <= b
    ensures a * width <= b * width
  {
  }

  /**
    The whole benchmark iteration, split, rendered and put together, against one full
    render: the checksum always agrees, and the pixel count exactly when the largest
    slice has less than 2^31 pixels.
  */
  method RenderInTiles(c: Colour, width: nat, height: nat, tileSize: nat, workers: nat) returns (r: TileResult)
    requires tileSize >= 1 || workers >= 1
    ensures r.checksum == ToUint32(RowsSum(c, width, 0, height))
    ensures r.pixels == height * width <==> MostRows(height, tileSize, workers) * width < TWO31
  {
    hide *;
    var slices := SlicesFor(height, tileSize, workers);
    var parts := RenderSlices(c, width, height, slices);
    ChecksumsAddUp(c, width, slices, parts, 0, height);
    PixelsAddUp(c, width, slices, parts, 0, height);
    LargestPart(c, width, slices, parts, MostRows(height, tileSize, workers));
    r := Aggregate(parts);
  }
}
