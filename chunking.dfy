/** Cutting a flat sequence into rows of equal width, the shape `GetRandomPermutations` rebuilds. */
module Chunking {

  /** `xs` cut into consecutive rows of `width` elements; only the last row may be shorter. */
  function Chunk(xs: seq<int>, width: nat): (rows: seq<seq<int>>)
    requires width > 0
    ensures (rows == []) == (xs == [])
    decreases |xs|
  {
    if xs == [] then []
    else if |xs| <= width then [xs]
    else [xs[..width]] + Chunk(xs[width..], width)
  }

  /** The rows laid end to end. */
  function Flatten(rows: seq<seq<int>>): seq<int> {
    if rows == [] then [] else rows[0] + Flatten(rows[1..])
  }

  /** The character codes of a string, one per character. */
  function Codes(s: string): (codes: seq<int>)
    ensures |codes| == |s| && forall i :: 0 <= i < |s| ==> codes[i] == s[i] as int
  {
    seq(|s|, i requires 0 <= i < |s| => s[i] as int)
  }

  /** Laying the rows of a chunking end to end gives back the sequence. */
  lemma {:induction false} FlattenChunk(xs: seq<int>, width: nat)
    requires width > 0
    ensures Flatten(Chunk(xs, width)) == xs
    decreases |xs|
  {
    if |xs| > width {
      FlattenChunk(xs[width..], width);
      assert xs[..width] + xs[width..] == xs;
    } else if xs != [] {
      assert [xs][1..] == [];
    }
  }

  /** Rows of one width laid end to end hold rows times width elements. */
  lemma {:induction false} FlattenLength(rows: seq<seq<int>>, width: nat)
    requires forall i :: 0 <= i < |rows| ==> |rows[i]| == width
    ensures |Flatten(rows)| == |rows| * width
    decreases |rows|
  {
    if rows != [] {
      FlattenLength(rows[1..], width);
      assert |Flatten(rows)| == width + (|rows| - 1) * width;
    }
  }

  /** Bounds on every element of every row are bounds on every element laid end to end. */
  lemma {:induction false} FlattenBounded(rows: seq<seq<int>>, low: int, high: int)
    requires forall i, j :: 0 <= i < |rows| && 0 <= j < |rows[i]| ==> low <= rows[i][j] <= high
    ensures forall k :: 0 <= k < |Flatten(rows)| ==> low <= Flatten(rows)[k] <= high
    decreases |rows|
  {
    if rows != [] {
      FlattenBounded(rows[1..], low, high);
      assert forall k :: 0 <= k < |Flatten(rows)| ==>
        Flatten(rows)[k] == if k < |rows[0]| then rows[0][k] else Flatten(rows[1..])[k - |rows[0]|];
    }
  }

  /** Rows that all have `width` elements are what chunking their concatenation gives. */
  lemma {:induction false} ChunkFlatten(rows: seq<seq<int>>, width: nat)
    requires width > 0
    requires forall i :: 0 <= i < |rows| ==> |rows[i]| == width
    ensures Chunk(Flatten(rows), width) == rows
    decreases |rows|
  {
    if rows != [] {
      var xs := Flatten(rows);
      ChunkFlatten(rows[1..], width);
      assert xs == rows[0] + Flatten(rows[1..]);
      assert xs[..width] == rows[0];
      assert xs[width..] == Flatten(rows[1..]);
      if rows[1..] == [] {
        assert Flatten(rows[1..]) == [] && xs == rows[0];
        assert rows == [rows[0]];
      } else {
        assert |xs| > width;
      }
    }
  }

  /** Quotient and remainder are the only ones: `a == q * d + r` with `0 <= r < d` fixes them. */
  lemma DivModUnique(a: int, d: int, q: int, r: int)
    requires d > 0 && a == q * d + r && 0 <= r < d
    ensures a % d == r && a / d == q
  {
    var k := q - a / d;
    assert k * d == a % d - r;
  }

  /** Taking `width` away from a length does not change its remainder modulo `width`. */
  lemma ModSubtract(n: nat, width: nat)
    requires 0 < width <= n
    ensures (n - width) % width == n % width
  {
    DivModUnique(n - width, width, n / width - 1, n % width);
  }

  /**
   * Appending one element to a chunked sequence opens a new row exactly when the
   * length so far is a multiple of the width; otherwise it extends the last row.
   */
  lemma {:induction false} ChunkSnoc(xs: seq<int>, x: int, width: nat)
    requires width > 0
    ensures var rows := Chunk(xs, width);
            Chunk(xs + [x], width)
            == if |xs| % width == 0 then rows + [[x]] else rows[..|rows| - 1] + [rows[|rows| - 1] + [x]]
    decreases |xs|
  {
    var ys := xs + [x];
    var rows := Chunk(xs, width);
    if xs == [] {
      DivModUnique(0, width, 0, 0);
      assert ys == [x];
      assert Chunk(ys, width) == rows + [[x]];
    } else if |xs| < width {
      DivModUnique(|xs|, width, 0, |xs|);
      assert rows == [xs];
      assert Chunk(ys, width) == [ys];
      assert Chunk(ys, width) == rows[..|rows| - 1] + [rows[|rows| - 1] + [x]];
    } else if |xs| == width {
      DivModUnique(|xs|, width, 1, 0);
      assert ys[..width] == xs && ys[width..] == [x];
      assert Chunk(ys, width) == rows + [[x]];
    } else {
      assert ys[..width] == xs[..width];
      assert ys[width..] == xs[width..] + [x];
      ChunkSnoc(xs[width..], x, width);
      ModSubtract(|xs|, width);
      var rest := Chunk(xs[width..], width);
      assert rows == [xs[..width]] + rest;
      assert Chunk(ys, width) == [xs[..width]] + Chunk(xs[width..] + [x], width);
      if |xs| % width != 0 {
        assert rows[..|rows| - 1] == [xs[..width]] + rest[..|rest| - 1];
        assert rows[|rows| - 1] == rest[|rest| - 1];
        assert (|xs| - width) % width != 0;
        assert Chunk(xs[width..] + [x], width) == rest[..|rest| - 1] + [rest[|rest| - 1] + [x]];
        assert Chunk(ys, width) == rows[..|rows| - 1] + [rows[|rows| - 1] + [x]];
      } else {
        assert Chunk(xs[width..] + [x], width) == rest + [[x]];
        assert Chunk(ys, width) == rows + [[x]];
      }
    }
  }

  /**
   * One step of a loop that opens an empty row whenever the count of elements seen is a multiple
   * of `width`, then appends the next element to the last row.
   */
  lemma ChunkAppendToLast(xs: seq<int>, x: int, width: nat, rows: seq<seq<int>>)
    requires width > 0
    requires rows == if |xs| % width == 0 then Chunk(xs, width) + [[]] else Chunk(xs, width)
    ensures |rows| > 0 && rows[|rows| - 1 := rows[|rows| - 1] + [x]] == Chunk(xs + [x], width)
  {
    var before := Chunk(xs, width);
    ChunkSnoc(xs, x, width);
    if |xs| % width == 0 {
      assert rows == before + [[]];
      assert rows[|rows| - 1] + [x] == [x];
      assert rows[|rows| - 1 := rows[|rows| - 1] + [x]] == before + [[x]];
    } else {
      assert xs != [];
      assert before != [];
      assert rows == before;
      assert rows[|rows| - 1 := rows[|rows| - 1] + [x]] == before[..|before| - 1] + [before[|before| - 1] + [x]];
    }
  }

  /** The codes of one more character. */
  lemma CodesSnoc(s: string, n: nat)
    requires n < |s|
    ensures Codes(s[..n + 1]) == Codes(s[..n]) + [s[n] as int]
  {
  }

  /** Chunking `count * width` elements gives `count` rows of exactly `width` elements. */
  lemma {:induction false} ChunkShape(xs: seq<int>, width: nat, count: nat)
    requires width > 0 && |xs| == count * width
    ensures |Chunk(xs, width)| == count
    ensures forall i :: 0 <= i < count ==> |Chunk(xs, width)[i]| == width
    decreases count
  {
    if count > 1 {
      assert |xs[width..]| == (count - 1) * width;
      ChunkShape(xs[width..], width, count - 1);
    } else if count == 1 {
      assert |xs| == width;
    }
  }

  /** Offset `j` in row `i` of `count` rows of `width` lies inside them, `width` past offset `j` in row `i - 1`. */
  lemma RowOffset(width: nat, count: nat, i: nat, j: nat)
    requires i < count && j < width
    ensures i * width + j < count * width
    ensures i > 0 ==> (i - 1) * width + j + width == i * width + j
  {
    var k: nat := count - 1 - i;
    assert k * width >= 0;
    assert count * width == i * width + k * width + width;
  }

  /** Element `j` of row `i` is element `i * width + j` of the sequence. */
  lemma {:induction false} ChunkAt(xs: seq<int>, width: nat, count: nat, i: nat, j: nat)
    requires width > 0 && |xs| == count * width
    requires i < count && j < width
    ensures |Chunk(xs, width)| == count && |Chunk(xs, width)[i]| == width
    ensures i * width + j < |xs| && Chunk(xs, width)[i][j] == xs[i * width + j]
    decreases i
  {
    ChunkShape(xs, width, count);
    RowOffset(width, count, i, j);
    if i > 0 {
      assert |xs[width..]| == (count - 1) * width;
      ChunkAt(xs[width..], width, count - 1, i - 1, j);
    }
  }

}
