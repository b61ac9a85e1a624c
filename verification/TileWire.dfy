/**
 The binary message that carries the changed tiles of one frame: a 16-bit tile
 count, then per tile four 16-bit coordinates, a 32-bit length and that many
 JPEG bytes, all big-endian. The agent writes it, the browser parses it.

 JPEG is a pair of opaque functions; nothing is assumed about their round trip.
 */
module TileWire {
  import opened Common
  import opened Frames

  datatype Colour = Colour(r: Byte, g: Byte, b: Byte)

  /**
   encode turns the rows of a tile into bytes, or fails. decode gives the colour
   that drawing those bytes stretched to w by h puts at column i, row j.
   */
  datatype Codec = Codec(
    encode: seq<seq<Byte>> -> Option<seq<Byte>>,
    decode: (seq<Byte>, nat, nat, nat, nat) -> Colour)

  datatype Tile = Tile(rect: Rect, jpeg: seq<Byte>)

  const MAX16 := 0x1_0000
  const MAX32 := 0x1_0000_0000

  // ---- writing ----

  /** The low 16 bits of n, high byte first. */
  function U16(n: nat): seq<Byte> {
    [n / 256 % 256, n % 256]
  }

  function U32(n: nat): seq<Byte> {
    U16(n / MAX16) + U16(n)
  }

  function Header(t: Tile): (h: seq<Byte>)
    ensures |h| == 12
  {
    U16(t.rect.x) + U16(t.rect.y) + U16(t.rect.w) + U16(t.rect.h) + U32(|t.jpeg|)
  }

  function Body(tiles: seq<Tile>): seq<Byte> {
    if tiles == [] then [] else Header(tiles[0]) + tiles[0].jpeg + Body(tiles[1..])
  }

  function Message(tiles: seq<Tile>): seq<Byte> {
    U16(|tiles|) + Body(tiles)
  }

  predicate SameSize(prev: Frame, cur: Frame) {
    |prev.pix| == |cur.pix| && prev.width == cur.width && prev.height == cur.height
  }

  /**
   The tiles of rs a frame has to send: all of them when the size changed, else
   those with a pixel that differs. None when the JPEG encoder fails on one.
   */
  ghost function ChangedTiles(codec: Codec, prev: Frame, cur: Frame, rs: seq<Rect>): Option<seq<Tile>>
    requires prev.WellFormed() && cur.WellFormed()
    requires AllInside(rs, cur.width, cur.height)
  {
    if rs == [] then Some([])
    else
      var rest := ChangedTiles(codec, prev, cur, rs[1..]);
      if SameSize(prev, cur) && !Differs(prev, cur, rs[0]) then rest
      else match codec.encode(SubImage(cur, rs[0]))
        case None => None
        case Some(jpeg) => if rest.None? then None else Some([Tile(rs[0], jpeg)] + rest.value)
  }

  /** ChangedTiles over the whole grid: what the message for cur after prev holds. */
  ghost function FrameTiles(codec: Codec, prev: Frame, cur: Frame): Option<seq<Tile>>
    requires prev.WellFormed() && cur.WellFormed()
  {
    GridInside(cur.width, cur.height);
    ChangedTiles(codec, prev, cur, Grid(cur.width, cur.height))
  }

  lemma {:induction false} BodyAppend(tiles: seq<Tile>, t: Tile)
    ensures Body(tiles + [t]) == Body(tiles) + Header(t) + t.jpeg
  {
    if tiles == [] {
      assert [t][1..] == [];
    } else {
      assert (tiles + [t])[1..] == tiles[1..] + [t];
      BodyAppend(tiles[1..], t);
    }
  }

  /** The buffer under construction: two reserved bytes and the tiles so far. */
  ghost predicate Holds(buf: seq<Byte>, written: seq<Tile>, count: nat) {
    buf == [0, 0] + Body(written) && count == |written| % MAX16
  }

  lemma Reassociate(a: seq<Byte>, b: seq<Byte>, c: seq<Byte>, d: seq<Byte>)
    ensures a + (b + c + d) == a + b + c + d
    ensures (a + b)[|a|..] == b
  {
  }

  lemma HoldsOneMore(buf: seq<Byte>, written: seq<Tile>, count: nat, t: Tile)
    requires Holds(buf, written, count)
    ensures Holds(buf + Header(t) + t.jpeg, written + [t], (count + 1) % MAX16)
  {
    BodyAppend(written, t);
    Reassociate([0, 0], Body(written), Header(t), t.jpeg);
    assert |written + [t]| == |written| + 1;
  }

  lemma U16Wraps(n: nat)
    ensures U16(n % MAX16) == U16(n)
  {
    var k, m := n / MAX16, n % MAX16;
    assert n == k * 65536 + m;
    assert n / 256 == k * 256 + m / 256;
  }

  lemma Patched(buf: seq<Byte>, written: seq<Tile>, count: nat)
    requires Holds(buf, written, count)
    ensures U16(count) + buf[2..] == Message(written)
  {
    Reassociate([0, 0], Body(written), [], []);
    U16Wraps(|written|);
  }

  ghost predicate AllInside(rs: seq<Rect>, w: nat, h: nat) {
    forall r :: r in rs ==> r.Inside(w, h)
  }

  ghost predicate Progress(whole: Option<seq<Tile>>, written: seq<Tile>, left: Option<seq<Tile>>) {
    whole == if left.None? then None else Some(written + left.value)
  }

  /** Moving the head of the tiles left to do into the tiles written keeps the sum. */
  lemma OneTile(codec: Codec, prev: Frame, cur: Frame, all: Option<seq<Tile>>, written: seq<Tile>, r: Rect, rest: seq<Rect>)
    requires prev.WellFormed() && cur.WellFormed()
    requires AllInside([r] + rest, cur.width, cur.height)
    requires Progress(all, written, ChangedTiles(codec, prev, cur, [r] + rest))
    ensures AllInside(rest, cur.width, cur.height) && r.Inside(cur.width, cur.height)
    ensures var jpeg := codec.encode(SubImage(cur, r));
            if SameSize(prev, cur) && !Differs(prev, cur, r) then
              Progress(all, written, ChangedTiles(codec, prev, cur, rest))
            else if jpeg.None? then all.None?
            else Progress(all, written + [Tile(r, jpeg.value)], ChangedTiles(codec, prev, cur, rest))
  {
    assert ([r] + rest)[0] == r && ([r] + rest)[1..] == rest;
    var jpeg, left := codec.encode(SubImage(cur, r)), ChangedTiles(codec, prev, cur, rest);
    if jpeg.Some? && left.Some? {
      assert written + ([Tile(r, jpeg.value)] + left.value) == written + [Tile(r, jpeg.value)] + left.value;
    }
  }

  /**
   The inner loop of the encoder: one grid row. Appends each changed tile to the
   buffer and counts it in 16 bits.
   */
  method EncodeRow(codec: Codec, prev: Frame, cur: Frame, sameSize: bool, ty: nat, buf: seq<Byte>, count: nat,
                   ghost all: Option<seq<Tile>>, ghost written: seq<Tile>, ghost below: seq<Rect>)
    returns (ok: bool, buf': seq<Byte>, count': nat, ghost written': seq<Tile>)
    requires prev.WellFormed() && cur.WellFormed() && ty < cur.height && sameSize == SameSize(prev, cur)
    requires AllInside(RowTiles(cur.width, cur.height, 0, ty) + below, cur.width, cur.height)
    requires Progress(all, written, ChangedTiles(codec, prev, cur, RowTiles(cur.width, cur.height, 0, ty) + below))
    requires Holds(buf, written, count)
    ensures AllInside(below, cur.width, cur.height)
    ensures !ok ==> all.None?
    ensures ok ==> Progress(all, written', ChangedTiles(codec, prev, cur, below)) && Holds(buf', written', count')
  {
    var w, h := cur.width, cur.height;
    buf', count', written' := buf, count, written;
    ok := true;
    var tx := 0;
    while ok && tx < w
      invariant AllInside(RowTiles(w, h, tx, ty) + below, w, h)
      invariant if ok then Progress(all, written', ChangedTiles(codec, prev, cur, RowTiles(w, h, tx, ty) + below))
                else all.None?
      invariant Holds(buf', written', count')
      decreases w - tx
    {
      var r := TileAt(w, h, tx, ty);
      ghost var rest := RowTiles(w, h, tx + TILE, ty) + below;
      assert RowTiles(w, h, tx, ty) + below == [r] + rest;
      OneTile(codec, prev, cur, all, written', r, rest);
      var send := true;
      if sameSize {
        send := TileChanged(prev, cur, r);
      }
      if send {
        var jpeg := codec.encode(SubImage(cur, r));
        if jpeg.None? {
          ok := false;
        } else {
          var t := Tile(r, jpeg.value);
          HoldsOneMore(buf', written', count', t);
          buf' := buf' + Header(t) + t.jpeg;
          written' := written' + [t];
          count' := (count' + 1) % MAX16;
        }
      }
      tx := tx + TILE;
    }
    assert forall q :: q in below ==> q in RowTiles(w, h, tx, ty) + below;
    assert tx >= w ==> RowTiles(w, h, tx, ty) + below == below;
  }

  /**
   The agent's encoder: walks the grid row by row and, at the end, patches the
   count into the two bytes it reserved. None when the JPEG encoder fails.
   */
  method EncodeChangedTiles(codec: Codec, prev: Frame, cur: Frame) returns (result: Option<(nat, seq<Byte>)>)
    requires prev.WellFormed() && cur.WellFormed()
    ensures var tiles := FrameTiles(codec, prev, cur);
            result == if tiles.None? then None else Some((|tiles.value| % MAX16, Message(tiles.value)))
  {
    var w, h := cur.width, cur.height;
    var sameSize := |prev.pix| == |cur.pix| && prev.width == w && prev.height == h;
    var buf: seq<Byte>, count: nat := [0, 0], 0;
    ghost var written: seq<Tile> := [];
    GridInside(w, h);
    ghost var all := FrameTiles(codec, prev, cur);
    assert all.Some? ==> [] + all.value == all.value;
    var ty := 0;
    while ty < h
      invariant AllInside(TilesFrom(w, h, ty), w, h)
      invariant Progress(all, written, ChangedTiles(codec, prev, cur, TilesFrom(w, h, ty)))
      invariant Holds(buf, written, count)
      decreases h - ty
    {
      var ok: bool;
      ok, buf, count, written := EncodeRow(codec, prev, cur, sameSize, ty, buf, count, all, written, TilesFrom(w, h, ty + TILE));
      if !ok {
        return None;
      }
      ty := ty + TILE;
    }
    assert TilesFrom(w, h, ty) == [] && written + [] == written;
    Patched(buf, written, count);
    buf := U16(count) + buf[2..];
    return Some((count, buf));
  }

  // ---- reading ----

  function GetU16(data: seq<Byte>, off: nat): (n: nat)
    requires off + 2 <= |data|
    ensures n < MAX16
  {
    var hi: nat, lo: nat := data[off], data[off + 1];
    hi * 256 + lo
  }

  function GetU32(data: seq<Byte>, off: nat): (n: nat)
    requires off + 4 <= |data|
    ensures n < MAX32
  {
    GetU16(data, off) * MAX16 + GetU16(data, off + 2)
  }

  /** The tiles read before the end or the first out-of-range access; ok is false for the latter. */
  datatype Parsed = Parsed(tiles: seq<Tile>, ok: bool, end: nat)

  function ParseTiles(data: seq<Byte>, off: nat, n: nat): (p: Parsed)
    requires off <= |data|
    ensures off <= p.end <= |data| && |p.tiles| <= n && (p.ok ==> |p.tiles| == n)
    decreases n
  {
    if n == 0 then Parsed([], true, off)
    else if off + 12 > |data| || off + 12 + GetU32(data, off + 8) > |data| then Parsed([], false, off)
    else
      var rect := Rect(GetU16(data, off), GetU16(data, off + 2), GetU16(data, off + 4), GetU16(data, off + 6));
      var next := off + 12 + GetU32(data, off + 8);
      var rest := ParseTiles(data, next, n - 1);
      Parsed([Tile(rect, data[off + 12..next])] + rest.tiles, rest.ok, rest.end)
  }

  function ParseMessage(data: seq<Byte>): Parsed {
    if |data| < 2 then Parsed([], false, 0) else ParseTiles(data, 2, GetU16(data, 0))
  }

  // ---- the round trip ----

  predicate TileFits(t: Tile) {
    t.rect.x < MAX16 && t.rect.y < MAX16 && t.rect.w < MAX16 && t.rect.h < MAX16 && |t.jpeg| < MAX32
  }

  predicate Fits(tiles: seq<Tile>) {
    |tiles| < MAX16 && forall t :: t in tiles ==> TileFits(t)
  }

  lemma ReadU16(data: seq<Byte>, off: nat, n: nat)
    requires off + 2 <= |data| && data[off..off + 2] == U16(n)
    ensures GetU16(data, off) == n % MAX16
  {
    assert data[off..off + 2][0] == data[off] && data[off..off + 2][1] == data[off + 1];
  }

  /** Six 16-bit fields in a row can be sliced out again. */
  lemma SixFields(data: seq<Byte>, off: nat, a: nat, b: nat, c: nat, d: nat, e: nat, f: nat)
    requires off + 12 <= |data|
    requires data[off..off + 12] == U16(a) + U16(b) + U16(c) + U16(d) + (U16(e) + U16(f))
    ensures GetU16(data, off) == a % MAX16 && GetU16(data, off + 2) == b % MAX16
    ensures GetU16(data, off + 4) == c % MAX16 && GetU16(data, off + 6) == d % MAX16
    ensures GetU16(data, off + 8) == e % MAX16 && GetU16(data, off + 10) == f % MAX16
  {
    var h := data[off..off + 12];
    assert h[0..2] == U16(a) && h[2..4] == U16(b) && h[4..6] == U16(c) && h[6..8] == U16(d);
    assert h[8..10] == U16(e) && h[10..12] == U16(f);
    SliceOfSlice(data, off, off + 12, 0, 2);
    SliceOfSlice(data, off, off + 12, 2, 4);
    SliceOfSlice(data, off, off + 12, 4, 6);
    SliceOfSlice(data, off, off + 12, 6, 8);
    SliceOfSlice(data, off, off + 12, 8, 10);
    SliceOfSlice(data, off, off + 12, 10, 12);
    ReadU16(data, off, a);
    ReadU16(data, off + 2, b);
    ReadU16(data, off + 4, c);
    ReadU16(data, off + 6, d);
    ReadU16(data, off + 8, e);
    ReadU16(data, off + 10, f);
  }

  /** Reading the header of a tile back gives its coordinates and its length. */
  lemma HeaderRoundTrip(data: seq<Byte>, off: nat, t: Tile)
    requires off + 12 <= |data| && data[off..off + 12] == Header(t) && TileFits(t)
    ensures GetU16(data, off) == t.rect.x && GetU16(data, off + 2) == t.rect.y
    ensures GetU16(data, off + 4) == t.rect.w && GetU16(data, off + 6) == t.rect.h
    ensures GetU32(data, off + 8) == |t.jpeg|
  {
    SixFields(data, off, t.rect.x, t.rect.y, t.rect.w, t.rect.h, |t.jpeg| / MAX16, |t.jpeg|);
  }

  lemma ParseStep(data: seq<Byte>, off: nat, t: Tile, n: nat)
    requires n > 0 && TileFits(t) && off + 12 + |t.jpeg| <= |data|
    requires data[off..off + 12] == Header(t) && data[off + 12..off + 12 + |t.jpeg|] == t.jpeg
    ensures var rest := ParseTiles(data, off + 12 + |t.jpeg|, n - 1);
            ParseTiles(data, off, n) == Parsed([t] + rest.tiles, rest.ok, rest.end)
  {
    HeaderRoundTrip(data, off, t);
  }

  lemma HeadTail(data: seq<Byte>, off: nat, a: seq<Byte>, b: seq<Byte>)
    requires off <= |data| && data[off..] == a + b
    ensures off + |a| <= |data| && data[off..off + |a|] == a && data[off + |a|..] == b
  {
    assert |data[off..]| == |a| + |b|;
    assert data[off..off + |a|] == data[off..][..|a|];
    assert data[off + |a|..] == data[off..][|a|..];
  }

  lemma BodySplit(data: seq<Byte>, off: nat, t: Tile, rest: seq<Byte>)
    requires off <= |data| && data[off..] == Header(t) + t.jpeg + rest
    ensures off + 12 + |t.jpeg| <= |data|
    ensures data[off..off + 12] == Header(t) && data[off + 12..off + 12 + |t.jpeg|] == t.jpeg
    ensures data[off + 12 + |t.jpeg|..] == rest
  {
    assert Header(t) + t.jpeg + rest == Header(t) + (t.jpeg + rest);
    HeadTail(data, off, Header(t), t.jpeg + rest);
    HeadTail(data, off + 12, t.jpeg, rest);
  }

  lemma {:induction false} BodyRoundTrip(data: seq<Byte>, off: nat, tiles: seq<Tile>)
    requires off <= |data| && data[off..] == Body(tiles)
    requires forall t :: t in tiles ==> TileFits(t)
    ensures ParseTiles(data, off, |tiles|) == Parsed(tiles, true, |data|)
    decreases |tiles|
  {
    if tiles == [] {
      assert |data[off..]| == 0;
    } else {
      var t, rest := tiles[0], tiles[1..];
      var next := off + 12 + |t.jpeg|;
      BodySplit(data, off, t, Body(rest));
      BodyRoundTrip(data, next, rest);
      ParseStep(data, off, t, |tiles|);
      assert [t] + rest == tiles;
    }
  }

  lemma {:induction false} ParsePrefix(data: seq<Byte>, off: nat, n: nat, m: nat)
    requires off <= |data| && n <= m && ParseTiles(data, off, m).ok
    ensures ParseTiles(data, off, n).tiles == ParseTiles(data, off, m).tiles[..n]
    decreases n
  {
    if n > 0 {
      ParsePrefix(data, off + 12 + GetU32(data, off + 8), n - 1, m - 1);
    }
  }

  lemma {:induction false} ParsedTilesFit(data: seq<Byte>, off: nat, n: nat)
    requires off <= |data|
    ensures forall t :: t in ParseTiles(data, off, n).tiles ==> TileFits(t)
    decreases n
  {
    if n != 0 && off + 12 <= |data| && off + 12 + GetU32(data, off + 8) <= |data| {
      ParsedTilesFit(data, off + 12 + GetU32(data, off + 8), n - 1);
    }
  }

  lemma MessageParts(data: seq<Byte>, n: nat, body: seq<Byte>)
    requires data == U16(n) + body
    ensures |data| >= 2 && GetU16(data, 0) == n % MAX16 && data[2..] == body
  {
    assert data[0..2] == U16(n);
    ReadU16(data, 0, n);
  }

  lemma ParseParts(data: seq<Byte>, tiles: seq<Tile>)
    requires Fits(tiles) && |data| >= 2 && GetU16(data, 0) == |tiles| && data[2..] == Body(tiles)
    ensures ParseMessage(data) == Parsed(tiles, true, |data|)
  {
    BodyRoundTrip(data, 2, tiles);
  }

  lemma FitsRoundTrip(tiles: seq<Tile>)
    requires Fits(tiles)
    ensures ParseMessage(Message(tiles)) == Parsed(tiles, true, |Message(tiles)|)
  {
    var data := Message(tiles);
    MessageParts(data, |tiles|, Body(tiles));
    ParseParts(data, tiles);
  }

  lemma ParsedFits(data: seq<Byte>)
    ensures Fits(ParseMessage(data).tiles)
  {
    if |data| >= 2 {
      ParsedTilesFit(data, 2, GetU16(data, 0));
    }
  }

  /**
   Parsing what was written gives back exactly the tiles, in order, and consumes
   the whole buffer, if and only if the count and every field fit their width.
   */
  lemma RoundTripIffFits(tiles: seq<Tile>)
    ensures ParseMessage(Message(tiles)) == Parsed(tiles, true, |Message(tiles)|) <==> Fits(tiles)
  {
    ParsedFits(Message(tiles));
    if Fits(tiles) {
      FitsRoundTrip(tiles);
    }
  }

  // ---- the bytes themselves ----

  /** n in two bytes, and in four, the high one first. */
  predicate BigEndian16(b: seq<Byte>, n: nat) {
    |b| == 2 && (n < 0x1_0000 ==> n == b[0] as nat * 256 + b[1] as nat)
  }

  predicate BigEndian32(b: seq<Byte>, n: nat) {
    |b| == 4 && (n < 0x1_0000_0000 ==> n == ((b[0] as nat * 256 + b[1] as nat) * 256 + b[2] as nat) * 256 + b[3] as nat)
  }

  /** A header is the tile's column, row, width, height and JPEG length, in that order and big-endian. */
  lemma HeaderBytes(t: Tile)
    ensures var h := Header(t);
            && BigEndian16(h[0..2], t.rect.x) && BigEndian16(h[2..4], t.rect.y)
            && BigEndian16(h[4..6], t.rect.w) && BigEndian16(h[6..8], t.rect.h) && BigEndian32(h[8..12], |t.jpeg|)
  {
    var h := Header(t);
    assert h[0..2] == U16(t.rect.x) && h[2..4] == U16(t.rect.y) && h[4..6] == U16(t.rect.w) && h[6..8] == U16(t.rect.h);
    assert h[8..12] == U32(|t.jpeg|);
    LengthBytes(|t.jpeg|);
  }

  lemma LengthBytes(n: nat)
    ensures BigEndian32(U32(n), n)
  {
    if n < MAX32 {
      assert n / MAX16 / 256 % 256 == n / MAX16 / 256;
    }
  }

  /** A message is the count, big-endian, and then each tile's header and JPEG, in order. */
  lemma MessageBytes(tiles: seq<Tile>)
    ensures |Message(tiles)| >= 2 && BigEndian16(Message(tiles)[..2], |tiles|)
    ensures tiles == [] ==> Message(tiles)[2..] == []
    ensures tiles != [] ==> Message(tiles)[2..] == Header(tiles[0]) + tiles[0].jpeg + Message(tiles[1..])[2..]
  {
    assert Message(tiles)[..2] == U16(|tiles|) && Message(tiles)[2..] == Body(tiles);
    if tiles != [] {
      assert Message(tiles[1..])[2..] == Body(tiles[1..]);
    }
  }

  // ---- what is parsed when it does not fit ----

  /** A tile as its header carries it: every field modulo 65536. */
  function Wrapped(t: Tile): Tile {
    Tile(Rect(t.rect.x % MAX16, t.rect.y % MAX16, t.rect.w % MAX16, t.rect.h % MAX16), t.jpeg)
  }

  function AllWrapped(tiles: seq<Tile>): (ws: seq<Tile>)
    ensures |ws| == |tiles|
  {
    if tiles == [] then [] else [Wrapped(tiles[0])] + AllWrapped(tiles[1..])
  }

  lemma {:induction false} AllWrappedAt(tiles: seq<Tile>, i: nat)
    requires i < |tiles|
    ensures AllWrapped(tiles)[i] == Wrapped(tiles[i])
    decreases |tiles|
  {
    if i > 0 {
      AllWrappedAt(tiles[1..], i - 1);
    }
  }

  lemma SameHeader(t: Tile)
    ensures Header(Wrapped(t)) == Header(t)
  {
    U16Wraps(t.rect.x);
    U16Wraps(t.rect.y);
    U16Wraps(t.rect.w);
    U16Wraps(t.rect.h);
  }

  /** Wrapping the fields changes no byte. */
  lemma {:induction false} SameBody(tiles: seq<Tile>)
    ensures Body(AllWrapped(tiles)) == Body(tiles)
    decreases |tiles|
  {
    if tiles != [] {
      SameHeader(tiles[0]);
      SameBody(tiles[1..]);
    }
  }

  predicate ShortJpegs(tiles: seq<Tile>) {
    forall i :: 0 <= i < |tiles| ==> |tiles[i].jpeg| < MAX32
  }

  predicate AllFit(tiles: seq<Tile>) {
    forall i :: 0 <= i < |tiles| ==> TileFits(tiles[i])
  }

  lemma WrappedFits(tiles: seq<Tile>)
    requires ShortJpegs(tiles)
    ensures AllFit(AllWrapped(tiles))
  {
    forall i | 0 <= i < |tiles|
      ensures TileFits(AllWrapped(tiles)[i])
    {
      AllWrappedAt(tiles, i);
    }
  }

  /** The number of tiles that the count in the message announces. */
  function Announced(tiles: seq<Tile>): (n: nat)
    ensures n <= |tiles| && n == |tiles| % MAX16
  {
    |tiles| % MAX16
  }

  lemma ReadPrefix(data: seq<Byte>, tiles: seq<Tile>, n: nat)
    requires |data| >= 2 && GetU16(data, 0) == n <= |tiles| && data[2..] == Body(tiles) && AllFit(tiles)
    ensures ParseMessage(data).tiles == tiles[..n]
  {
    BodyRoundTrip(data, 2, tiles);
    ParsePrefix(data, 2, n, |tiles|);
  }

  /** Of any message with JPEGs of less than 4 GiB, as many tiles are read as its 16-bit count announces, each with its fields wrapped. */
  lemma ReadWrapped(tiles: seq<Tile>)
    requires ShortJpegs(tiles)
    ensures ParseMessage(Message(tiles)).tiles == AllWrapped(tiles)[..Announced(tiles)]
  {
    SameBody(tiles);
    WrappedFits(tiles);
    MessageParts(Message(tiles), |tiles|, Body(tiles));
    ReadPrefix(Message(tiles), AllWrapped(tiles), Announced(tiles));
  }

  // ---- which frames fit ----

  /** What a caller can check about a frame before sending it whole. */
  predicate FrameFits(w: nat, h: nat) {
    w <= MAX16 && h <= MAX16 && Spans(w) * Spans(h) < MAX16
  }

  ghost predicate HasTileAt(rs: seq<Rect>, x: nat, y: nat) {
    exists r :: r in rs && r.x == x && r.y == y
  }

  /** x is the last multiple of the tile size below n. */
  predicate LastStart(x: nat, n: nat) {
    x % TILE == 0 && x < n <= x + TILE
  }

  lemma {:induction false} RowReaches(w: nat, h: nat, tx: nat, ty: nat, x: nat)
    requires tx < w && ty < h && tx % TILE == 0 && LastStart(x, w)
    ensures HasTileAt(RowTiles(w, h, tx, ty), x, ty)
    decreases w - tx
  {
    var rs, rest := RowTiles(w, h, tx, ty), RowTiles(w, h, tx + TILE, ty);
    assert rs[0] == TileAt(w, h, tx, ty) && rs[1..] == rest;
    if tx + TILE < w {
      RowReaches(w, h, tx + TILE, ty, x);
      var r :| r in rest && r.x == x && r.y == ty;
      assert r in rs;
    } else {
      assert rs[0] in rs && rs[0].x == x;
    }
  }

  lemma {:induction false} GridReaches(w: nat, h: nat, ty: nat, x: nat, y: nat)
    requires w > 0 && ty < h && ty % TILE == 0 && LastStart(x, w) && LastStart(y, h)
    ensures HasTileAt(TilesFrom(w, h, ty), x, y)
    decreases h - ty
  {
    var row, rest := RowTiles(w, h, 0, ty), TilesFrom(w, h, ty + TILE);
    if ty + TILE < h {
      GridReaches(w, h, ty + TILE, x, y);
      var r :| r in rest && r.x == x && r.y == y;
      assert r in row + rest;
    } else {
      RowReaches(w, h, 0, ty, x);
      var r :| r in row && r.x == x && r.y == ty;
      assert r in row + rest;
    }
  }

  predicate PositionsFit(rs: seq<Rect>) {
    forall r :: r in rs ==> r.x < MAX16 && r.y < MAX16
  }

  /** The whole grid of a non-empty frame fits the wire exactly when its size passes FrameFits. */
  lemma GridFitsIff(w: nat, h: nat)
    requires w > 0 && h > 0
    ensures (|Grid(w, h)| < MAX16 && PositionsFit(Grid(w, h))) <==> FrameFits(w, h)
  {
    GridInside(w, h);
    TilesFromCount(w, h, 0);
    var x, y := (w - 1) / TILE * TILE, (h - 1) / TILE * TILE;
    GridReaches(w, h, 0, x, y);
    if PositionsFit(Grid(w, h)) {
      var r :| r in Grid(w, h) && r.x == x && r.y == y;
      assert x <= MAX16 - TILE && y <= MAX16 - TILE;
    }
    if FrameFits(w, h) {
      forall r | r in Grid(w, h) ensures r.x < MAX16 && r.y < MAX16 {
        assert r.Inside(w, h) && 0 < r.w && 0 < r.h;
      }
    }
  }

  lemma UpToFits(w: nat, h: nat)
    requires w <= 32640 && h <= 32640
    ensures FrameFits(w, h)
  {
    assert Spans(w) <= 255 && Spans(h) <= 255;
    assert Spans(w) * Spans(h) <= 255 * Spans(h);
  }

  lemma {:induction false} FirstPaintSendsAll(codec: Codec, prev: Frame, cur: Frame, rs: seq<Rect>)
    requires prev.WellFormed() && cur.WellFormed() && !SameSize(prev, cur)
    requires AllInside(rs, cur.width, cur.height)
    ensures ChangedTiles(codec, prev, cur, rs).Some? ==> |ChangedTiles(codec, prev, cur, rs).value| == |rs|
  {
    if rs != [] {
      FirstPaintSendsAll(codec, prev, cur, rs[1..]);
    }
  }

  /** A first paint sends every tile of the grid, so its count wraps where the grid's does. */
  lemma FirstPaintCount(codec: Codec, prev: Frame, cur: Frame)
    requires prev.WellFormed() && cur.WellFormed() && !SameSize(prev, cur)
    requires FrameTiles(codec, prev, cur).Some?
    ensures |FrameTiles(codec, prev, cur).value| == |Grid(cur.width, cur.height)|
  {
    GridInside(cur.width, cur.height);
    FirstPaintSendsAll(codec, prev, cur, Grid(cur.width, cur.height));
  }

  lemma SpansOfLarge(n: nat)
    requires 32640 < n <= 32768
    ensures Spans(n) == 256
  {
  }

  lemma ProductIs(a: nat, b: nat)
    requires a == 256 && b == 256
    ensures a * b == MAX16
  {
  }

  /** Just past the bound of UpToFits, the tiles of a frame are counted as none at all. */
  lemma CountWraps(w: nat, h: nat)
    requires 32640 < w <= 32768 && 32640 < h <= 32768
    ensures |Grid(w, h)| % MAX16 == 0 && !FrameFits(w, h)
  {
    TilesFromCount(w, h, 0);
    SpansOfLarge(w);
    SpansOfLarge(h);
    ProductIs(Spans(w), Spans(h));
  }
}
