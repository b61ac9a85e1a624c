/**
 Where the law of the screen stream ends: a frame size is safe exactly when its
 tiles fit the wire. Past that some codec and screen give a wrong picture at once.
 */
module StreamBound {
  import opened Common
  import opened Frames
  import opened TileWire
  import opened Canvas
  import opened ScreenStream

  const WHITE := Colour(255, 255, 255)

  /** An encoder that needs no bytes, for a decoder that paints everything white. */
  const WHITE_CODEC := Codec(_ => Some([]), (_, _, _, _, _) => WHITE)

  const DARK: nat -> Byte := _ => 0

  /** The first tick of a stream that goes on leaves the client showing the whole frame. */
  ghost predicate FirstTickShows(codec: Codec, w: nat, h: nat, screen: nat -> Byte) {
    var s0 := Start(w, h, true, true);
    var s := OnTick(codec, s0, Some(screen), true);
    s.live ==>
      && FrameTiles(codec, NO_FRAME, Grabbed(s0, screen)).Some?
      && ReceiveAll(codec, s.sent) == Client(w, h, WholeFrame(codec, Grabbed(s0, screen)))
  }

  lemma FitsShows(codec: Codec, w: nat, h: nat, screen: nat -> Byte)
    requires SizeOk(w, h) && ShortTiles(codec)
    ensures FirstTickShows(codec, w, h, screen)
  {
    var s0, e := Start(w, h, true, true), Tick(Some(screen), true);
    TickShowsWholeFrame(codec, w, h, [], screen, true);
    assert [] + [e] == [e] && [e][..0] == [];
    assert Run(codec, s0, []) == s0 && Run(codec, s0, [e]) == Step(codec, s0, e);
  }

  // ---- what the client gets ----

  function BareTiles(rs: seq<Rect>): seq<Tile> {
    seq(|rs|, i requires 0 <= i < |rs| => Tile(rs[i], []))
  }

  lemma {:induction false} WhiteTiles(prev: Frame, cur: Frame, rs: seq<Rect>)
    requires prev.WellFormed() && cur.WellFormed() && !SameSize(prev, cur) && AllInside(rs, cur.width, cur.height)
    ensures ChangedTiles(WHITE_CODEC, prev, cur, rs) == Some(BareTiles(rs))
    decreases |rs|
  {
    if rs != [] {
      WhiteTiles(prev, cur, rs[1..]);
      assert BareTiles(rs) == [Tile(rs[0], [])] + BareTiles(rs[1..]);
    }
  }

  /** The tiles of the grid that the client draws: as many as the wrapped count says, where their wrapped coordinates say. */
  function Received(w: nat, h: nat): seq<Tile> {
    var tiles := BareTiles(Grid(w, h));
    AllWrapped(tiles)[..Announced(tiles)]
  }

  lemma ReceivedAt(w: nat, h: nat, i: nat)
    requires i < |Received(w, h)|
    ensures i < |Grid(w, h)| && Received(w, h)[i] == Wrapped(Tile(Grid(w, h)[i], []))
  {
    var tiles := BareTiles(Grid(w, h));
    AllWrappedAt(tiles, i);
  }

  lemma ClientGets(w: nat, h: nat)
    requires w > 0 && h > 0
    ensures var s := OnTick(WHITE_CODEC, Start(w, h, true, true), Some(DARK), true);
            s.live && ReceiveAll(WHITE_CODEC, s.sent) == Client(w, h, DrawAll(WHITE_CODEC, Blank(w, h), Received(w, h)))
  {
    var s0 := Start(w, h, true, true);
    var f := Grabbed(s0, DARK);
    var tiles := BareTiles(Grid(w, h));
    GridInside(w, h);
    WhiteTiles(NO_FRAME, f, Grid(w, h));
    ReceiveLast(WHITE_CODEC, [], Resolution(w, h));
    assert [] + [Resolution(w, h)] == s0.sent;
    if |tiles| % MAX16 != 0 {
      ReadWrapped(tiles);
      ReceiveLast(WHITE_CODEC, s0.sent, TileData(Message(tiles)));
    } else {
      assert Received(w, h) == [];
    }
  }

  lemma {:induction false} DrawAllUntouched(codec: Codec, px: Pixels, ts: seq<Tile>, p: (int, int))
    requires p in px && forall i :: 0 <= i < |ts| ==> !ts[i].rect.Covers(p.0, p.1)
    ensures p in DrawAll(codec, px, ts) && DrawAll(codec, px, ts)[p] == px[p]
    decreases |ts|
  {
    if ts != [] {
      DrawAllUntouched(codec, Draw(codec, px, ts[0]), ts[1..], p);
    }
  }

  lemma {:induction false} DrawnWhite(px: Pixels, ts: seq<Tile>, p: (int, int))
    requires p in px && (px[p] == WHITE || exists i :: 0 <= i < |ts| && ts[i].rect.Covers(p.0, p.1))
    ensures p in DrawAll(WHITE_CODEC, px, ts) && DrawAll(WHITE_CODEC, px, ts)[p] == WHITE
    decreases |ts|
  {
    if ts != [] {
      DrawnWhite(Draw(WHITE_CODEC, px, ts[0]), ts[1..], p);
    }
  }

  lemma WholeFrameWhite(w: nat, h: nat, p: (int, int))
    requires 0 <= p.0 < w && 0 <= p.1 < h
    ensures var f := Grabbed(Start(w, h, true, true), DARK);
            && FrameTiles(WHITE_CODEC, NO_FRAME, f).Some?
            && p in WholeFrame(WHITE_CODEC, f) && WholeFrame(WHITE_CODEC, f)[p] == WHITE
  {
    var f := Grabbed(Start(w, h, true, true), DARK);
    GridPartitions(w, h);
    WhiteTiles(NO_FRAME, f, Grid(w, h));
    var ts := BareTiles(Grid(w, h));
    assert Covered(Grid(w, h), p.0, p.1);
    var i :| 0 <= i < |Grid(w, h)| && Grid(w, h)[i].Covers(p.0, p.1);
    assert ts[i].rect.Covers(p.0, p.1);
    DrawnWhite(Blank(w, h), ts, p);
  }

  // ---- a pixel that stays black ----

  ghost predicate Missed(w: nat, h: nat, p: (int, int)) {
    && 0 <= p.0 < w && 0 <= p.1 < h
    && forall i :: 0 <= i < |Received(w, h)| ==> !Received(w, h)[i].rect.Covers(p.0, p.1)
  }

  lemma MissedBreaks(w: nat, h: nat, p: (int, int))
    requires w > 0 && h > 0 && Missed(w, h, p)
    ensures !FirstTickShows(WHITE_CODEC, w, h, DARK)
  {
    ClientGets(w, h);
    WholeFrameWhite(w, h, p);
    DrawAllUntouched(WHITE_CODEC, Blank(w, h), Received(w, h), p);
  }

  lemma WrappedEnds(x: nat, n: nat)
    requires x % TILE == 0 && n <= TILE
    ensures x % MAX16 + n % MAX16 <= MAX16
  {
  }

  /** No drawn tile reaches past column or row 65535. */
  lemma ReceivedShort(w: nat, h: nat, i: nat)
    requires i < |Received(w, h)|
    ensures var r := Received(w, h)[i].rect; r.x + r.w <= MAX16 && r.y + r.h <= MAX16
  {
    var g := Grid(w, h)[i];
    GridInside(w, h);
    TilesAligned(w, h, 0);
    assert g in Grid(w, h) && Aligned(g);
    ReceivedAt(w, h, i);
    WrappedEnds(g.x, g.w);
    WrappedEnds(g.y, g.h);
  }

  lemma FarPixelMissed(w: nat, h: nat)
    requires w > 0 && h > 0 && (w > MAX16 || h > MAX16)
    ensures Missed(w, h, if w > MAX16 then (MAX16, 0) else (0, MAX16))
  {
    forall i | 0 <= i < |Received(w, h)|
      ensures var r := Received(w, h)[i].rect; r.x + r.w <= MAX16 && r.y + r.h <= MAX16
    {
      ReceivedShort(w, h, i);
    }
  }

  lemma LastTileMissed(w: nat, h: nat)
    requires 0 < w <= MAX16 && 0 < h <= MAX16 && |Grid(w, h)| >= MAX16
    ensures var last := Grid(w, h)[|Grid(w, h)| - 1]; Missed(w, h, (last.x, last.y))
  {
    var rs := Grid(w, h);
    var n := |rs| - 1;
    var last := rs[n];
    GridPartitions(w, h);
    assert last in rs && last.Covers(last.x, last.y);
    forall i | 0 <= i < |Received(w, h)|
      ensures !Received(w, h)[i].rect.Covers(last.x, last.y)
    {
      assert rs[i] in rs && i < n;
      ReceivedAt(w, h, i);
      assert Received(w, h)[i].rect == rs[i];
      assert !rs[i].Covers(last.x, last.y);
    }
  }

  /**
   Exactly the sizes that fit: for every codec with JPEGs shorter than 4 GiB and
   every screen, the first delivered tick of a stream that goes on shows the whole
   frame, if and only if the frame's tiles fit the wire.
   */
  lemma LawHoldsIffFits(w: nat, h: nat)
    requires w > 0 && h > 0
    ensures FrameFits(w, h) <==> forall codec, screen :: ShortTiles(codec) ==> FirstTickShows(codec, w, h, screen)
  {
    if FrameFits(w, h) {
      forall codec, screen | ShortTiles(codec)
        ensures FirstTickShows(codec, w, h, screen)
      {
        FitsShows(codec, w, h, screen);
      }
    } else if w > MAX16 || h > MAX16 {
      FarPixelMissed(w, h);
      MissedBreaks(w, h, if w > MAX16 then (MAX16, 0) else (0, MAX16));
      assert ShortTiles(WHITE_CODEC);
    } else {
      TilesFromCount(w, h, 0);
      LastTileMissed(w, h);
      var last := Grid(w, h)[|Grid(w, h)| - 1];
      MissedBreaks(w, h, (last.x, last.y));
      assert ShortTiles(WHITE_CODEC);
    }
  }
}
