/**
 The browser's canvas and how one message is painted on it. The draws of one
 message are concurrent: each runs when its JPEG has been decoded.
 */
module Canvas {
  import opened Common
  import opened Frames
  import opened TileWire

  type Pixels = map<(int, int), Colour>

  const BLACK := Colour(0, 0, 0)

  /** What resizing a canvas leaves on it. */
  function Blank(w: nat, h: nat): Pixels {
    map x, y | 0 <= x < w && 0 <= y < h :: (x, y) := BLACK
  }

  function ColourIn(codec: Codec, t: Tile, p: (int, int)): Colour
    requires t.rect.Covers(p.0, p.1)
  {
    codec.decode(t.jpeg, t.rect.w, t.rect.h, p.0 - t.rect.x, p.1 - t.rect.y)
  }

  /** Drawing clips to the canvas: it adds no pixel. */
  function Draw(codec: Codec, px: Pixels, t: Tile): Pixels {
    map p | p in px :: if t.rect.Covers(p.0, p.1) then ColourIn(codec, t, p) else px[p]
  }

  function DrawAll(codec: Codec, px: Pixels, tiles: seq<Tile>): Pixels {
    if tiles == [] then px else DrawAll(codec, Draw(codec, px, tiles[0]), tiles[1..])
  }

  /** The same draws in another order of completion, given by tile numbers. */
  function DrawInOrder(codec: Codec, px: Pixels, tiles: seq<Tile>, order: seq<nat>): Pixels
    requires OrderOf(order, |tiles|)
  {
    if order == [] then px
    else DrawInOrder(codec, Draw(codec, px, tiles[order[0]]), tiles, order[1..])
  }

  /** order names each of its tiles once. */
  predicate OrderOf(order: seq<nat>, n: nat) {
    && (forall i :: 0 <= i < |order| ==> order[i] < n)
    && (forall i, j :: 0 <= i < j < |order| ==> order[i] != order[j])
  }

  predicate IsOrder(order: seq<nat>, n: nat) {
    OrderOf(order, n) && forall k: nat :: k < n ==> k in order
  }

  function Picked(tiles: seq<Tile>, order: seq<nat>): seq<Tile>
    requires OrderOf(order, |tiles|)
  {
    seq(|order|, i requires 0 <= i < |order| => tiles[order[i]])
  }

  ghost predicate TilesDisjoint(tiles: seq<Tile>) {
    forall i, j, x, y :: 0 <= i < j < |tiles| && tiles[i].rect.Covers(x, y) ==> !tiles[j].rect.Covers(x, y)
  }

  /** At p, after shows the tiles of ts that cover it, or what before showed if none does. */
  ghost predicate ShownAt(codec: Codec, before: Pixels, after: Pixels, ts: seq<Tile>, p: (int, int))
    requires p in before && p in after
  {
    && (forall t :: t in ts && t.rect.Covers(p.0, p.1) ==> after[p] == ColourIn(codec, t, p))
    && ((forall t :: t in ts ==> !t.rect.Covers(p.0, p.1)) ==> after[p] == before[p])
  }

  /** after is before with exactly the tiles of ts drawn on it. */
  ghost predicate Shows(codec: Codec, before: Pixels, after: Pixels, ts: seq<Tile>) {
    && after.Keys == before.Keys
    && forall p :: p in before ==> ShownAt(codec, before, after, ts, p)
  }

  ghost predicate ClearOf(t: Tile, ts: seq<Tile>) {
    forall u, x, y :: u in ts && t.rect.Covers(x, y) ==> !u.rect.Covers(x, y)
  }

  lemma OneMoreAt(codec: Codec, px: Pixels, after: Pixels, t: Tile, ts: seq<Tile>, p: (int, int))
    requires p in px && p in after && ShownAt(codec, Draw(codec, px, t), after, ts, p) && ClearOf(t, ts)
    ensures ShownAt(codec, px, after, [t] + ts, p)
  {
    assert t in [t] + ts;
    assert forall u :: u in ts ==> u in [t] + ts;
  }

  /** Drawing t and then tiles clear of it shows all of them. */
  lemma ShowsOneMore(codec: Codec, px: Pixels, after: Pixels, t: Tile, ts: seq<Tile>)
    requires Shows(codec, Draw(codec, px, t), after, ts) && ClearOf(t, ts)
    ensures Shows(codec, px, after, [t] + ts)
  {
    forall p | p in px
      ensures ShownAt(codec, px, after, [t] + ts, p)
    {
      OneMoreAt(codec, px, after, t, ts, p);
    }
  }

  lemma {:induction false} DrawAllShows(codec: Codec, px: Pixels, tiles: seq<Tile>)
    requires TilesDisjoint(tiles)
    ensures Shows(codec, px, DrawAll(codec, px, tiles), tiles)
    decreases |tiles|
  {
    if tiles != [] {
      var t, rest := tiles[0], tiles[1..];
      assert forall i :: 0 <= i < |rest| ==> rest[i] == tiles[i + 1];
      DrawAllShows(codec, Draw(codec, px, t), rest);
      ShowsOneMore(codec, px, DrawAll(codec, px, tiles), t, rest);
      assert tiles == [t] + rest;
    }
  }

  lemma PickedClear(tiles: seq<Tile>, order: seq<nat>)
    requires TilesDisjoint(tiles) && OrderOf(order, |tiles|) && order != []
    ensures ClearOf(tiles[order[0]], Picked(tiles, order[1..]))
  {
    var t, rest := tiles[order[0]], Picked(tiles, order[1..]);
    forall u, x, y | u in rest && t.rect.Covers(x, y)
      ensures !u.rect.Covers(x, y)
    {
      var i :| 0 <= i < |rest| && rest[i] == u;
      assert order[0] != order[i + 1];
    }
  }

  lemma {:induction false} DrawInOrderShows(codec: Codec, px: Pixels, tiles: seq<Tile>, order: seq<nat>)
    requires TilesDisjoint(tiles) && OrderOf(order, |tiles|)
    ensures Shows(codec, px, DrawInOrder(codec, px, tiles, order), Picked(tiles, order))
    decreases |order|
  {
    if order != [] {
      var t := tiles[order[0]];
      DrawInOrderShows(codec, Draw(codec, px, t), tiles, order[1..]);
      PickedClear(tiles, order);
      ShowsOneMore(codec, px, DrawInOrder(codec, px, tiles, order), t, Picked(tiles, order[1..]));
      assert Picked(tiles, order) == [t] + Picked(tiles, order[1..]);
    }
  }

  lemma ShowsUnique(codec: Codec, px: Pixels, a: Pixels, b: Pixels, ts: seq<Tile>, us: seq<Tile>)
    requires Shows(codec, px, a, ts) && Shows(codec, px, b, us)
    requires forall t :: t in ts <==> t in us
    ensures a == b
  {
    forall p | p in px
      ensures a[p] == b[p]
    {
      assert ShownAt(codec, px, a, ts, p) && ShownAt(codec, px, b, us, p);
      if t :| t in ts && t.rect.Covers(p.0, p.1) {
        assert t in us;
      }
    }
  }

  /** The draws of one message may complete in any order: the canvas is the same. */
  lemma DrawOrderIrrelevant(codec: Codec, px: Pixels, tiles: seq<Tile>, order: seq<nat>)
    requires TilesDisjoint(tiles) && IsOrder(order, |tiles|)
    ensures DrawInOrder(codec, px, tiles, order) == DrawAll(codec, px, tiles)
  {
    var drawn := Picked(tiles, order);
    DrawAllShows(codec, px, tiles);
    DrawInOrderShows(codec, px, tiles, order);
    forall t | t in tiles
      ensures t in drawn
    {
      var k :| 0 <= k < |tiles| && tiles[k] == t;
      assert k in order;
      var i :| 0 <= i < |order| && order[i] == k;
      assert drawn[i] == t;
    }
    ShowsUnique(codec, px, DrawInOrder(codec, px, tiles, order), DrawAll(codec, px, tiles), drawn, tiles);
  }

  lemma {:induction false} DrawInOrderAppend(codec: Codec, px: Pixels, tiles: seq<Tile>, order: seq<nat>, k: nat)
    requires k < |tiles| && OrderOf(order, |tiles|) && k !in order
    ensures DrawInOrder(codec, px, tiles, order + [k]) == Draw(codec, DrawInOrder(codec, px, tiles, order), tiles[k])
    decreases |order|
  {
    if order == [] {
      assert [k][1..] == [];
    } else {
      assert (order + [k])[1..] == order[1..] + [k];
      DrawInOrderAppend(codec, Draw(codec, px, tiles[order[0]]), tiles, order[1..], k);
    }
  }

  function Indices(n: nat): (s: set<nat>)
    ensures forall k: nat :: k in s <==> k < n
  {
    if n == 0 then {} else Indices(n - 1) + {n - 1}
  }

  lemma ParseOne(data: seq<Byte>, off: nat, n: nat, jobs: seq<Tile>, t: Tile, next: nat)
    requires n > 0 && off + 12 <= |data| && next == off + 12 + GetU32(data, off + 8) && next <= |data|
    requires t == Tile(Rect(GetU16(data, off), GetU16(data, off + 2), GetU16(data, off + 4), GetU16(data, off + 6)), data[off + 12..next])
    ensures jobs + ParseTiles(data, off, n).tiles == (jobs + [t]) + ParseTiles(data, next, n - 1).tiles
    ensures ParseTiles(data, off, n).ok == ParseTiles(data, next, n - 1).ok
  {
    var rest := ParseTiles(data, next, n - 1);
    assert ParseTiles(data, off, n) == Parsed([t] + rest.tiles, rest.ok, rest.end);
  }

  /** The parsing half of paintTiles: a moving offset, one queued draw per tile. */
  method QueueJobs(data: seq<Byte>) returns (jobs: seq<Tile>, ok: bool)
    ensures ok == ParseMessage(data).ok && jobs == ParseMessage(data).tiles
  {
    jobs, ok := [], |data| >= 2;
    if !ok {
      return;
    }
    var count, off, i := GetU16(data, 0), 2, 0;
    while i < count
      invariant 2 <= off <= |data| && i <= count
      invariant ParseMessage(data).ok == ParseTiles(data, off, count - i).ok
      invariant ParseMessage(data).tiles == jobs + ParseTiles(data, off, count - i).tiles
    {
      if off + 12 > |data| || off + 12 + GetU32(data, off + 8) > |data| {
        return jobs, false;
      }
      var next := off + 12 + GetU32(data, off + 8);
      var rect := Rect(GetU16(data, off), GetU16(data, off + 2), GetU16(data, off + 4), GetU16(data, off + 6));
      var t := Tile(rect, data[off + 12..next]);
      ParseOne(data, off, count - i, jobs, t, next);
      jobs, off, i := jobs + [t], next, i + 1;
    }
  }

  class CanvasElement {
    var width: nat
    var height: nat
    var px: Pixels

    constructor ()
      ensures width == height == 0 && px == map[]
    {
      width, height, px := 0, 0, map[];
    }

    method Resize(w: nat, h: nat)
      modifies this
      ensures width == w && height == h && px == Blank(w, h)
    {
      width, height, px := w, h, Blank(w, h);
    }

    /**
     Parses one binary message, queueing a draw per tile, then runs the queued
     draws in whatever order they complete. A malformed message throws, but the
     draws queued before that still happen.
     */
    method PaintTiles(codec: Codec, data: seq<Byte>) returns (ok: bool)
      modifies this`px
      ensures ok == ParseMessage(data).ok
      ensures exists order :: IsOrder(order, |ParseMessage(data).tiles|)
                && px == DrawInOrder(codec, old(px), ParseMessage(data).tiles, order)
      ensures TilesDisjoint(ParseMessage(data).tiles) ==> px == DrawAll(codec, old(px), ParseMessage(data).tiles)
    {
      var jobs;
      jobs, ok := QueueJobs(data);
      RunJobs(codec, jobs);
    }

    /** Runs every queued draw once, in an arbitrary order. */
    method RunJobs(codec: Codec, jobs: seq<Tile>)
      modifies this`px
      ensures exists order :: IsOrder(order, |jobs|) && px == DrawInOrder(codec, old(px), jobs, order)
      ensures TilesDisjoint(jobs) ==> px == DrawAll(codec, old(px), jobs)
    {
      var pending := Indices(|jobs|);
      ghost var order: seq<nat> := [];
      while pending != {}
        invariant forall k :: k in pending ==> k < |jobs|
        invariant forall k: nat :: k < |jobs| ==> (k in order <==> k !in pending)
        invariant OrderOf(order, |jobs|)
        invariant px == DrawInOrder(codec, old(px), jobs, order)
        decreases pending
      {
        var k :| k in pending;
        assert k !in order;
        DrawInOrderAppend(codec, old(px), jobs, order, k);
        px := Draw(codec, px, jobs[k]);
        order := order + [k];
        pending := pending - {k};
      }
      assert IsOrder(order, |jobs|);
      if TilesDisjoint(jobs) {
        DrawOrderIrrelevant(codec, old(px), jobs, order);
      }
    }
  }

  // ---- deltas ----

  /** The picture a whole-frame sender would give: every tile of the frame on a cleared canvas. */
  ghost function WholeFrame(codec: Codec, f: Frame): Pixels
    requires f.WellFormed() && FrameTiles(codec, NO_FRAME, f).Some?
  {
    DrawAll(codec, Blank(f.width, f.height), FrameTiles(codec, NO_FRAME, f).value)
  }

  ghost predicate Sends(prev: Frame, cur: Frame, r: Rect)
    requires prev.WellFormed() && cur.WellFormed() && r.Inside(cur.width, cur.height)
  {
    !SameSize(prev, cur) || Differs(prev, cur, r)
  }

  /** ChangedTiles sends exactly the rectangles that changed, each with its own image. */
  lemma {:induction false} ChangedTilesExact(codec: Codec, prev: Frame, cur: Frame, rs: seq<Rect>)
    requires prev.WellFormed() && cur.WellFormed()
    requires AllInside(rs, cur.width, cur.height) && Disjoint(rs) && ChangedTiles(codec, prev, cur, rs).Some?
    ensures var ts := ChangedTiles(codec, prev, cur, rs).value;
            && (forall t :: t in ts ==> t.rect in rs && Sends(prev, cur, t.rect) && codec.encode(SubImage(cur, t.rect)) == Some(t.jpeg))
            && (forall r :: r in rs && Sends(prev, cur, r) ==>
                  codec.encode(SubImage(cur, r)).Some? && Tile(r, codec.encode(SubImage(cur, r)).value) in ts)
            && TilesDisjoint(ts)
    decreases |rs|
  {
    if rs != [] {
      var r, rest := rs[0], rs[1..];
      assert forall i :: 0 <= i < |rest| ==> rest[i] == rs[i + 1];
      ChangedTilesExact(codec, prev, cur, rest);
      var ts, us := ChangedTiles(codec, prev, cur, rs).value, ChangedTiles(codec, prev, cur, rest).value;
      if Sends(prev, cur, r) {
        assert ts[0].rect == r && ts[1..] == us;
        forall i, j, x, y | 0 <= i < j < |ts| && ts[i].rect.Covers(x, y)
          ensures !ts[j].rect.Covers(x, y)
        {
          assert ts[j] == us[j - 1] && ts[j].rect in rest;
          if i > 0 {
            assert ts[i] == us[i - 1];
          }
        }
      }
    }
  }

  /** Point p of px shows what the tile of f that covers it decodes to. */
  ghost predicate ShowsTile(codec: Codec, px: Pixels, f: Frame, r: Rect)
    requires f.WellFormed() && r.Inside(f.width, f.height)
  {
    var jpeg := codec.encode(SubImage(f, r));
    && jpeg.Some?
    && forall p :: p in px && r.Covers(p.0, p.1) ==> px[p] == ColourIn(codec, Tile(r, jpeg.value), p)
  }

  ghost predicate ShowsFrame(codec: Codec, px: Pixels, f: Frame)
    requires f.WellFormed() && AllInside(Grid(f.width, f.height), f.width, f.height)
  {
    && px.Keys == Blank(f.width, f.height).Keys
    && forall r :: r in Grid(f.width, f.height) ==> ShowsTile(codec, px, f, r)
  }

  lemma ShowsFrameUnique(codec: Codec, a: Pixels, b: Pixels, f: Frame)
    requires f.WellFormed() && AllInside(Grid(f.width, f.height), f.width, f.height)
    requires ShowsFrame(codec, a, f) && ShowsFrame(codec, b, f)
    ensures a == b
  {
    GridPartitions(f.width, f.height);
    forall p | p in a
      ensures a[p] == b[p]
    {
      assert Covered(Grid(f.width, f.height), p.0, p.1);
      var i :| 0 <= i < |Grid(f.width, f.height)| && Grid(f.width, f.height)[i].Covers(p.0, p.1);
      var r := Grid(f.width, f.height)[i];
      assert r in Grid(f.width, f.height);
      assert ShowsTile(codec, a, f, r) && ShowsTile(codec, b, f, r);
    }
  }

  lemma SentTile(codec: Codec, px: Pixels, after: Pixels, ts: seq<Tile>, t: Tile)
    requires Shows(codec, px, after, ts) && t in ts
    ensures forall p :: p in after && t.rect.Covers(p.0, p.1) ==> after[p] == ColourIn(codec, t, p)
  {
    assert forall p :: p in px ==> ShownAt(codec, px, after, ts, p);
  }

  lemma KeptTile(codec: Codec, px: Pixels, after: Pixels, ts: seq<Tile>, r: Rect)
    requires Shows(codec, px, after, ts) && forall t, x, y :: t in ts && r.Covers(x, y) ==> !t.rect.Covers(x, y)
    ensures forall p :: p in after && r.Covers(p.0, p.1) ==> p in px && after[p] == px[p]
  {
    assert forall p :: p in px ==> ShownAt(codec, px, after, ts, p);
  }

  /** One tile after the delta: drawn afresh if it changed, left alone if not. */
  lemma DeltaTile(codec: Codec, px: Pixels, prev: Frame, cur: Frame, r: Rect)
    requires prev.WellFormed() && cur.WellFormed()
    requires AllInside(Grid(cur.width, cur.height), cur.width, cur.height) && r in Grid(cur.width, cur.height)
    requires SameSize(prev, cur) ==> ShowsTile(codec, px, prev, r)
    requires FrameTiles(codec, prev, cur).Some?
    ensures ShowsTile(codec, DrawAll(codec, px, FrameTiles(codec, prev, cur).value), cur, r)
  {
    var rs, ts := Grid(cur.width, cur.height), FrameTiles(codec, prev, cur).value;
    var after := DrawAll(codec, px, ts);
    GridPartitions(cur.width, cur.height);
    ChangedTilesExact(codec, prev, cur, rs);
    DrawAllShows(codec, px, ts);
    if Sends(prev, cur, r) {
      SentTile(codec, px, after, ts, Tile(r, codec.encode(SubImage(cur, r)).value));
    } else {
      SameImage(prev, cur, r);
      forall t, x, y | t in ts && r.Covers(x, y)
        ensures !t.rect.Covers(x, y)
      {
        var i :| 0 <= i < |rs| && rs[i] == r;
        var j :| 0 <= j < |rs| && rs[j] == t.rect;
        assert i != j;
      }
      KeptTile(codec, px, after, ts, r);
    }
  }

  lemma {:induction false} DrawAllKeys(codec: Codec, px: Pixels, ts: seq<Tile>)
    ensures DrawAll(codec, px, ts).Keys == px.Keys
    decreases |ts|
  {
    if ts != [] {
      DrawAllKeys(codec, Draw(codec, px, ts[0]), ts[1..]);
    }
  }

  /** Drawing the tiles of cur that changed since prev on a canvas showing prev gives one showing cur. */
  lemma DeltaShows(codec: Codec, px: Pixels, prev: Frame, cur: Frame)
    requires prev.WellFormed() && cur.WellFormed()
    requires AllInside(Grid(cur.width, cur.height), cur.width, cur.height)
    requires px.Keys == Blank(cur.width, cur.height).Keys
    requires SameSize(prev, cur) ==> ShowsFrame(codec, px, prev)
    requires FrameTiles(codec, prev, cur).Some?
    ensures ShowsFrame(codec, DrawAll(codec, px, FrameTiles(codec, prev, cur).value), cur)
  {
    var ts := FrameTiles(codec, prev, cur).value;
    DrawAllKeys(codec, px, ts);
    forall r | r in Grid(cur.width, cur.height)
      ensures ShowsTile(codec, DrawAll(codec, px, ts), cur, r)
    {
      DeltaTile(codec, px, prev, cur, r);
    }
  }

  lemma {:induction false} ChangedTilesEncodable(codec: Codec, prev: Frame, cur: Frame, rs: seq<Rect>)
    requires prev.WellFormed() && cur.WellFormed() && AllInside(rs, cur.width, cur.height)
    requires forall r :: r in rs ==> codec.encode(SubImage(cur, r)).Some?
    ensures ChangedTiles(codec, prev, cur, rs).Some?
    decreases |rs|
  {
    if rs != [] {
      ChangedTilesEncodable(codec, prev, cur, rs[1..]);
    }
  }

  /**
   Delta sending refines whole-frame sending: whatever non-empty frame is sent,
   if the canvas shows what the whole-frame sender would have painted for prev
   (or anything of the right size when the size changed), then after the delta it
   shows, pixel for pixel, what the whole-frame sender paints for cur.
   */
  lemma DeltaRefinesWhole(codec: Codec, px: Pixels, prev: Frame, cur: Frame)
    requires prev.WellFormed() && cur.WellFormed() && cur.width > 0
    requires px.Keys == Blank(cur.width, cur.height).Keys
    requires SameSize(prev, cur) ==> FrameTiles(codec, NO_FRAME, prev).Some? && px == WholeFrame(codec, prev)
    requires FrameTiles(codec, prev, cur).Some?
    ensures FrameTiles(codec, NO_FRAME, cur).Some?
    ensures DrawAll(codec, px, FrameTiles(codec, prev, cur).value) == WholeFrame(codec, cur)
  {
    GridInside(cur.width, cur.height);
    if SameSize(prev, cur) {
      DeltaShows(codec, Blank(cur.width, cur.height), NO_FRAME, prev);
    }
    DeltaShows(codec, px, prev, cur);
    var after := DrawAll(codec, px, FrameTiles(codec, prev, cur).value);
    forall r | r in Grid(cur.width, cur.height)
      ensures codec.encode(SubImage(cur, r)).Some?
    {
      assert ShowsTile(codec, after, cur, r);
    }
    ChangedTilesEncodable(codec, NO_FRAME, cur, Grid(cur.width, cur.height));
    DeltaShows(codec, Blank(cur.width, cur.height), NO_FRAME, cur);
    ShowsFrameUnique(codec, after, WholeFrame(codec, cur), cur);
  }
}
