/**
 Screen frames and the 128-pixel tile grid.

 A frame is a flat RGBA buffer, four bytes a pixel, rows from the top. The agent
 compares two frames tile by tile and row by row, by slicing that flat buffer.
 */
module Frames {
  import opened Common

  const TILE := 128

  /** A captured frame. The zero frame stands for "nothing sent yet". */
  datatype Frame = Frame(width: nat, height: nat, pix: seq<Byte>) {
    predicate WellFormed() {
      |pix| == width * height * 4
    }
  }

  const NO_FRAME := Frame(0, 0, [])

  datatype Rect = Rect(x: nat, y: nat, w: nat, h: nat) {
    predicate Covers(px: int, py: int) {
      x <= px < x + w && y <= py < y + h
    }

    predicate Inside(width: nat, height: nat) {
      x + w <= width && y + h <= height
    }
  }

  // ---- the flat buffer ----

  lemma {:induction false} RowEnd(y: nat, h: nat, stride: nat)
    requires y < h
    ensures 0 <= y * stride && y * stride + stride <= h * stride
  {
    if y + 1 < h {
      RowEnd(y, h - 1, stride);
      assert h * stride == (h - 1) * stride + stride;
    } else {
      assert h * stride == y * stride + stride;
    }
  }

  lemma SliceOfSlice(s: seq<Byte>, a: nat, b: nat, c: nat, d: nat)
    requires a <= b <= |s| && c <= d <= b - a
    ensures s[a..b][c..d] == s[a + c..a + d]
  {
    forall k | 0 <= k < d - c
      ensures s[a..b][c..d][k] == s[a + c..a + d][k]
    {
    }
  }

  lemma RowInBounds(f: Frame, x: nat, y: nat, n: nat)
    requires f.WellFormed() && x + n <= f.width && y < f.height
    ensures 0 <= y * (f.width * 4) + x * 4 <= y * (f.width * 4) + x * 4 + n * 4 <= |f.pix|
  {
    RowEnd(y, f.height, f.width * 4);
    assert f.height * (f.width * 4) == f.width * f.height * 4;
  }

  /** The n pixels of row y from column x on, as bytes. */
  function Row(f: Frame, x: nat, y: nat, n: nat): (row: seq<Byte>)
    requires f.WellFormed() && x + n <= f.width && y < f.height
    ensures |row| == n * 4
  {
    RowInBounds(f, x, y, n);
    var off := y * (f.width * 4) + x * 4;
    f.pix[off..off + n * 4]
  }

  function Pixel(f: Frame, x: nat, y: nat): seq<Byte>
    requires f.WellFormed() && x < f.width && y < f.height
  {
    Row(f, x, y, 1)
  }

  function SubImage(f: Frame, r: Rect): (rows: seq<seq<Byte>>)
    requires f.WellFormed() && r.Inside(f.width, f.height)
    ensures |rows| == r.h
  {
    seq(r.h, j requires 0 <= j < r.h => Row(f, r.x, r.y + j, r.w))
  }

  lemma PixelOfRow(f: Frame, x: nat, y: nat, n: nat, i: nat)
    requires f.WellFormed() && x + n <= f.width && y < f.height && i < n
    ensures Pixel(f, x + i, y) == Row(f, x, y, n)[4 * i..4 * i + 4]
  {
    RowInBounds(f, x, y, n);
    RowInBounds(f, x + i, y, 1);
    var stride := f.width * 4;
    var base := y * stride;
    SliceOfSlice(f.pix, base + x * 4, base + x * 4 + n * 4, 4 * i, 4 * i + 4);
    assert base + (x + i) * 4 == base + x * 4 + 4 * i;
  }

  lemma EqualInFours(a: seq<Byte>, b: seq<Byte>, n: nat)
    requires |a| == |b| == n * 4
    requires forall i {:trigger a[4 * i..4 * i + 4]} :: 0 <= i < n ==> a[4 * i..4 * i + 4] == b[4 * i..4 * i + 4]
    ensures a == b
  {
    forall k | 0 <= k < |a|
      ensures a[k] == b[k]
    {
      var i := k / 4;
      assert a[k] == a[4 * i..4 * i + 4][k - 4 * i];
      assert b[k] == b[4 * i..4 * i + 4][k - 4 * i];
    }
  }

  /** Comparing row spans of the flat buffer is comparing pixels. */
  lemma RowsEqualIffPixels(f: Frame, g: Frame, x: nat, y: nat, n: nat)
    requires f.WellFormed() && g.WellFormed()
    requires x + n <= f.width && y < f.height
    requires x + n <= g.width && y < g.height
    ensures Row(f, x, y, n) == Row(g, x, y, n) <==>
            forall px: nat :: x <= px < x + n ==> Pixel(f, px, y) == Pixel(g, px, y)
  {
    var rf, rg := Row(f, x, y, n), Row(g, x, y, n);
    forall px: nat | x <= px < x + n
      ensures Pixel(f, px, y) == rf[4 * (px - x)..4 * (px - x) + 4]
      ensures Pixel(g, px, y) == rg[4 * (px - x)..4 * (px - x) + 4]
    {
      PixelOfRow(f, x, y, n, px - x);
      PixelOfRow(g, x, y, n, px - x);
    }
    if forall px: nat :: x <= px < x + n ==> Pixel(f, px, y) == Pixel(g, px, y) {
      forall i {:trigger rf[4 * i..4 * i + 4]} | 0 <= i < n
        ensures rf[4 * i..4 * i + 4] == rg[4 * i..4 * i + 4]
      {
        assert Pixel(f, x + i, y) == Pixel(g, x + i, y);
      }
      EqualInFours(rf, rg, n);
    }
  }

  /** Some pixel of the rectangle differs between the two frames. */
  ghost predicate Differs(prev: Frame, cur: Frame, r: Rect)
    requires prev.WellFormed() && cur.WellFormed()
    requires r.Inside(prev.width, prev.height) && r.Inside(cur.width, cur.height)
  {
    exists x: nat, y: nat :: r.Covers(x, y) && Pixel(prev, x, y) != Pixel(cur, x, y)
  }

  ghost predicate RowDiffers(prev: Frame, cur: Frame, r: Rect, y: nat)
    requires prev.WellFormed() && cur.WellFormed()
    requires r.Inside(prev.width, prev.height) && r.Inside(cur.width, cur.height)
    requires y < r.y + r.h
  {
    exists x: nat :: r.x <= x < r.x + r.w && Pixel(prev, x, y) != Pixel(cur, x, y)
  }

  lemma RowOfImage(prev: Frame, cur: Frame, r: Rect, y: nat)
    requires prev.WellFormed() && cur.WellFormed()
    requires r.Inside(prev.width, prev.height) && r.Inside(cur.width, cur.height)
    requires r.y <= y < r.y + r.h
    ensures SubImage(prev, r)[y - r.y] == SubImage(cur, r)[y - r.y] <==> !RowDiffers(prev, cur, r, y)
  {
    RowsEqualIffPixels(prev, cur, r.x, y, r.w);
    var a, b := Row(prev, r.x, y, r.w), Row(cur, r.x, y, r.w);
    assert SubImage(prev, r)[y - r.y] == a;
    assert SubImage(cur, r)[y - r.y] == b;
  }

  lemma DiffersByRow(prev: Frame, cur: Frame, r: Rect)
    requires prev.WellFormed() && cur.WellFormed()
    requires r.Inside(prev.width, prev.height) && r.Inside(cur.width, cur.height)
    ensures Differs(prev, cur, r) <==> exists y: nat :: r.y <= y < r.y + r.h && RowDiffers(prev, cur, r, y)
  {
    if Differs(prev, cur, r) {
      var x: nat, y: nat :| r.Covers(x, y) && Pixel(prev, x, y) != Pixel(cur, x, y);
      assert RowDiffers(prev, cur, r, y);
    }
  }

  /** A rectangle none of whose pixels differ is the same image in both frames. */
  lemma SameImage(prev: Frame, cur: Frame, r: Rect)
    requires prev.WellFormed() && cur.WellFormed()
    requires r.Inside(prev.width, prev.height) && r.Inside(cur.width, cur.height)
    ensures !Differs(prev, cur, r) <==> SubImage(prev, r) == SubImage(cur, r)
  {
    DiffersByRow(prev, cur, r);
    if Differs(prev, cur, r) {
      var y: nat :| r.y <= y < r.y + r.h && RowDiffers(prev, cur, r, y);
      RowOfImage(prev, cur, r, y);
    } else {
      forall j | 0 <= j < r.h
        ensures SubImage(prev, r)[j] == SubImage(cur, r)[j]
      {
        RowOfImage(prev, cur, r, r.y + j);
      }
    }
  }

  /** The row-span comparison the agent runs on the two flat buffers. */
  method TileChanged(prev: Frame, cur: Frame, r: Rect) returns (changed: bool)
    requires prev.WellFormed() && cur.WellFormed()
    requires prev.width == cur.width && prev.height == cur.height
    requires r.Inside(cur.width, cur.height)
    ensures changed <==> Differs(prev, cur, r)
  {
    var stride, rowBytes := cur.width * 4, r.w * 4;
    var j := 0;
    while j < r.h
      invariant j <= r.h
      invariant forall k :: 0 <= k < j ==> SubImage(prev, r)[k] == SubImage(cur, r)[k]
    {
      RowInBounds(prev, r.x, r.y + j, r.w);
      RowInBounds(cur, r.x, r.y + j, r.w);
      var off := (r.y + j) * stride + r.x * 4;
      if prev.pix[off..off + rowBytes] != cur.pix[off..off + rowBytes] {
        assert SubImage(prev, r)[j] != SubImage(cur, r)[j];
        SameImage(prev, cur, r);
        return true;
      }
      j := j + 1;
    }
    SameImage(prev, cur, r);
    return false;
  }

  // ---- the grid ----

  function TileAt(w: nat, h: nat, tx: nat, ty: nat): (r: Rect)
    requires tx < w && ty < h
    ensures r.Inside(w, h) && 0 < r.w <= TILE && 0 < r.h <= TILE
  {
    Rect(tx, ty, if tx + TILE > w then w - tx else TILE, if ty + TILE > h then h - ty else TILE)
  }

  /** The tiles of one grid row, from column tx on. */
  function RowTiles(w: nat, h: nat, tx: nat, ty: nat): seq<Rect>
    requires ty < h
    decreases w - tx
  {
    if tx >= w then [] else [TileAt(w, h, tx, ty)] + RowTiles(w, h, tx + TILE, ty)
  }

  /** The tiles from grid row ty on, row by row. */
  function TilesFrom(w: nat, h: nat, ty: nat): seq<Rect>
    decreases h - ty
  {
    if ty >= h then [] else RowTiles(w, h, 0, ty) + TilesFrom(w, h, ty + TILE)
  }

  function Grid(w: nat, h: nat): seq<Rect> {
    TilesFrom(w, h, 0)
  }

  ghost predicate Disjoint(rs: seq<Rect>) {
    forall i, j, x, y :: 0 <= i < j < |rs| && rs[i].Covers(x, y) ==> !rs[j].Covers(x, y)
  }

  ghost predicate Covered(rs: seq<Rect>, x: int, y: int) {
    exists i :: 0 <= i < |rs| && rs[i].Covers(x, y)
  }

  /** How many tiles of 128 it takes to span n pixels. */
  function Spans(n: nat): nat {
    (n + TILE - 1) / TILE
  }

  lemma {:induction false} RowTilesPartition(w: nat, h: nat, tx: nat, ty: nat)
    requires ty < h
    ensures var rs := RowTiles(w, h, tx, ty);
            && (forall r :: r in rs ==> r.Inside(w, h) && 0 < r.w <= TILE && 0 < r.h <= TILE && tx <= r.x && r.y == ty)
            && Disjoint(rs)
            && (forall x, y :: tx <= x < w && ty <= y < ty + TILE && y < h ==> Covered(rs, x, y))
    decreases w - tx
  {
    if tx < w {
      RowTilesPartition(w, h, tx + TILE, ty);
      var first, rest := TileAt(w, h, tx, ty), RowTiles(w, h, tx + TILE, ty);
      var rs := RowTiles(w, h, tx, ty);
      assert rs[0] == first && rs[1..] == rest;
      forall x, y | tx <= x < w && ty <= y < ty + TILE && y < h
        ensures Covered(rs, x, y)
      {
        if x < tx + TILE {
          assert rs[0].Covers(x, y);
        } else {
          assert Covered(rest, x, y);
          var i :| 0 <= i < |rest| && rest[i].Covers(x, y);
          assert rs[i + 1].Covers(x, y);
        }
      }
      forall i, j, x, y | 0 <= i < j < |rs| && rs[i].Covers(x, y)
        ensures !rs[j].Covers(x, y)
      {
        assert rs[j] == rest[j - 1] && rs[j] in rest;
        if i > 0 {
          assert rs[i] == rest[i - 1];
        }
      }
    }
  }

  lemma {:induction false} TilesFromPartition(w: nat, h: nat, ty: nat)
    ensures var rs := TilesFrom(w, h, ty);
            && (forall r :: r in rs ==> r.Inside(w, h) && 0 < r.w <= TILE && 0 < r.h <= TILE && ty <= r.y)
            && Disjoint(rs)
            && (forall x, y :: 0 <= x < w && ty <= y < h ==> Covered(rs, x, y))
    decreases h - ty
  {
    if ty < h {
      RowTilesPartition(w, h, 0, ty);
      TilesFromPartition(w, h, ty + TILE);
      var row, rest := RowTiles(w, h, 0, ty), TilesFrom(w, h, ty + TILE);
      var rs := TilesFrom(w, h, ty);
      assert rs == row + rest;
      forall x, y | 0 <= x < w && ty <= y < h
        ensures Covered(rs, x, y)
      {
        if y < ty + TILE {
          assert Covered(row, x, y);
          var i :| 0 <= i < |row| && row[i].Covers(x, y);
          assert rs[i].Covers(x, y);
        } else {
          assert Covered(rest, x, y);
          var i :| 0 <= i < |rest| && rest[i].Covers(x, y);
          assert rs[|row| + i].Covers(x, y);
        }
      }
      forall i, j, x, y | 0 <= i < j < |rs| && rs[i].Covers(x, y)
        ensures !rs[j].Covers(x, y)
      {
        if j < |row| {
          assert rs[i] == row[i] && rs[j] == row[j];
        } else if i >= |row| {
          assert rs[i] == rest[i - |row|] && rs[j] == rest[j - |row|];
        } else {
          assert row[i] in row && rest[j - |row|] in rest;
        }
      }
    }
  }

  /** Every pixel of the frame lies in exactly one tile, and every tile lies in the frame. */
  lemma GridPartitions(w: nat, h: nat)
    ensures forall r :: r in Grid(w, h) ==> r.Inside(w, h) && 0 < r.w <= TILE && 0 < r.h <= TILE
    ensures Disjoint(Grid(w, h))
    ensures forall x, y :: 0 <= x < w && 0 <= y < h ==> Covered(Grid(w, h), x, y)
  {
    TilesFromPartition(w, h, 0);
  }

  lemma GridInside(w: nat, h: nat)
    ensures forall r :: r in Grid(w, h) ==> r.Inside(w, h) && 0 < r.w <= TILE && 0 < r.h <= TILE
  {
    TilesFromPartition(w, h, 0);
  }

  lemma {:induction false} RowTilesCount(w: nat, h: nat, tx: nat, ty: nat)
    requires ty < h
    ensures |RowTiles(w, h, tx, ty)| == if tx < w then Spans(w - tx) else 0
    decreases w - tx
  {
    if tx < w {
      RowTilesCount(w, h, tx + TILE, ty);
    }
  }

  lemma {:induction false} TilesFromCount(w: nat, h: nat, ty: nat)
    ensures |TilesFrom(w, h, ty)| == Spans(w) * (if ty < h then Spans(h - ty) else 0)
    decreases h - ty
  {
    if ty < h {
      RowTilesCount(w, h, 0, ty);
      TilesFromCount(w, h, ty + TILE);
      var below := if ty + TILE < h then Spans(h - ty - TILE) else 0;
      assert Spans(h - ty) == 1 + below;
      assert Spans(w) * (1 + below) == Spans(w) + Spans(w) * below;
    }
  }

  predicate Aligned(r: Rect) {
    r.x % TILE == 0 && r.y % TILE == 0
  }

  lemma {:induction false} RowTilesAligned(w: nat, h: nat, tx: nat, ty: nat)
    requires ty < h && tx % TILE == 0 && ty % TILE == 0
    ensures forall i :: 0 <= i < |RowTiles(w, h, tx, ty)| ==> Aligned(RowTiles(w, h, tx, ty)[i])
    decreases w - tx
  {
    if tx < w {
      RowTilesAligned(w, h, tx + TILE, ty);
    }
  }

  /** Every tile starts at a multiple of the tile size. */
  lemma {:induction false} TilesAligned(w: nat, h: nat, ty: nat)
    requires ty % TILE == 0
    ensures forall i :: 0 <= i < |TilesFrom(w, h, ty)| ==> Aligned(TilesFrom(w, h, ty)[i])
    decreases h - ty
  {
    if ty < h {
      RowTilesAligned(w, h, 0, ty);
      TilesAligned(w, h, ty + TILE);
    }
  }
}
