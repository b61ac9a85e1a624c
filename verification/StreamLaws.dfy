/**
 What one turn of the stream loop does, said without its own definitions: when it
 keeps the stream going, when it sends, when it swaps the capturer, and what colour
 each pixel of the client's canvas then has.
 */
module StreamLaws {
  import opened Common
  import opened Frames
  import opened TileWire
  import opened Canvas
  import opened ScreenStream

  // ---- when a tick keeps the stream going ----

  predicate Resized(prev: Frame, cur: Frame) {
    prev.width != cur.width || prev.height != cur.height
  }

  /** The tiles of the grid that have to be sent: all after a change of size, else those where a pixel differs. */
  ghost function ToSend(prev: Frame, cur: Frame, rs: seq<Rect>): set<Rect>
    requires prev.WellFormed() && cur.WellFormed() && AllInside(rs, cur.width, cur.height)
  {
    set r | r in rs && (Resized(prev, cur) || Differs(prev, cur, r))
  }

  lemma SizesSame(prev: Frame, cur: Frame)
    requires prev.WellFormed() && cur.WellFormed()
    ensures SameSize(prev, cur) <==> !Resized(prev, cur)
  {
  }

  lemma {:induction false} EncodableIff(codec: Codec, prev: Frame, cur: Frame, rs: seq<Rect>)
    requires prev.WellFormed() && cur.WellFormed() && AllInside(rs, cur.width, cur.height)
    ensures ChangedTiles(codec, prev, cur, rs).Some? <==>
            forall r :: r in ToSend(prev, cur, rs) ==> codec.encode(SubImage(cur, r)).Some?
    decreases |rs|
  {
    if rs != [] {
      SizesSame(prev, cur);
      EncodableIff(codec, prev, cur, rs[1..]);
      ToSendStep(prev, cur, rs);
    }
  }

  lemma ToSendStep(prev: Frame, cur: Frame, rs: seq<Rect>)
    requires prev.WellFormed() && cur.WellFormed() && AllInside(rs, cur.width, cur.height) && rs != []
    ensures ToSend(prev, cur, rs) ==
            ToSend(prev, cur, rs[1..]) + if Resized(prev, cur) || Differs(prev, cur, rs[0]) then {rs[0]} else {}
  {
    assert forall r :: r in rs <==> r == rs[0] || r in rs[1..];
  }

  ghost predicate NonEmptyAll(rs: seq<Rect>) {
    forall r :: r in rs ==> 0 < r.w && 0 < r.h
  }

  lemma FirstIsNew(rs: seq<Rect>)
    requires rs != [] && Disjoint(rs) && NonEmptyAll(rs)
    ensures rs[0] !in rs[1..] && Disjoint(rs[1..]) && NonEmptyAll(rs[1..])
  {
    assert rs[0].Covers(rs[0].x, rs[0].y);
    forall i | 0 <= i < |rs[1..]|
      ensures rs[1..][i] != rs[0]
    {
      assert rs[1..][i] == rs[i + 1];
    }
    forall i, j, x, y | 0 <= i < j < |rs[1..]| && rs[1..][i].Covers(x, y)
      ensures !rs[1..][j].Covers(x, y)
    {
      assert rs[1..][i] == rs[i + 1] && rs[1..][j] == rs[j + 1];
    }
  }

  lemma {:induction false} CountToSend(codec: Codec, prev: Frame, cur: Frame, rs: seq<Rect>)
    requires prev.WellFormed() && cur.WellFormed() && AllInside(rs, cur.width, cur.height)
    requires Disjoint(rs) && NonEmptyAll(rs) && ChangedTiles(codec, prev, cur, rs).Some?
    ensures |ChangedTiles(codec, prev, cur, rs).value| == |ToSend(prev, cur, rs)|
    decreases |rs|
  {
    if rs != [] {
      SizesSame(prev, cur);
      FirstIsNew(rs);
      CountToSend(codec, prev, cur, rs[1..]);
      ToSendStep(prev, cur, rs);
      assert rs[0] !in ToSend(prev, cur, rs[1..]);
    } else {
      assert ToSend(prev, cur, rs) == {};
    }
  }

  /** The tiles that have to be sent of a whole frame. */
  ghost function Due(prev: Frame, cur: Frame): set<Rect>
    requires prev.WellFormed() && cur.WellFormed()
  {
    GridInside(cur.width, cur.height);
    ToSend(prev, cur, Grid(cur.width, cur.height))
  }

  ghost predicate Encodes(codec: Codec, cur: Frame, due: set<Rect>)
    requires cur.WellFormed()
  {
    forall r :: r in due ==> r.Inside(cur.width, cur.height) && codec.encode(SubImage(cur, r)).Some?
  }

  lemma FrameDue(codec: Codec, prev: Frame, cur: Frame)
    requires prev.WellFormed() && cur.WellFormed()
    ensures FrameTiles(codec, prev, cur).Some? <==> Encodes(codec, cur, Due(prev, cur))
    ensures FrameTiles(codec, prev, cur).Some? ==> |FrameTiles(codec, prev, cur).value| == |Due(prev, cur)|
  {
    var rs := Grid(cur.width, cur.height);
    GridPartitions(cur.width, cur.height);
    EncodableIff(codec, prev, cur, rs);
    if FrameTiles(codec, prev, cur).Some? {
      CountToSend(codec, prev, cur, rs);
    }
  }

  /**
   A live stream is live after a tick if and only if the grab worked, every tile that
   has to be sent encodes, and their number is a multiple of 65536 or the message was
   delivered. A tick that goes on changes nothing but the frame remembered and, if
   that number is not such a multiple, adds one message; one that does not closes the
   current capturer and sends nothing.
   */
  lemma TickGoesOnIff(codec: Codec, s: Stream, screen: Option<nat -> Byte>, delivered: bool)
    requires s.prev.WellFormed() && s.live
    ensures var s' := Step(codec, s, Tick(screen, delivered));
            && (s'.live <==>
                  && screen.Some?
                  && Encodes(codec, Grabbed(s, screen.value), Due(s.prev, Grabbed(s, screen.value)))
                  && (|Due(s.prev, Grabbed(s, screen.value))| % MAX16 == 0 || delivered))
            && (s'.width, s'.height, s'.cap) == (s.width, s.height, s.cap)
            && (if s'.live then
                  && s'.prev == Grabbed(s, screen.value) && s'.closed == s.closed
                  && |s'.sent| == |s.sent| + (if |Due(s.prev, Grabbed(s, screen.value))| % MAX16 == 0 then 0 else 1)
                  && s.sent <= s'.sent
                else s'.closed == s.closed + [s.cap] && s'.sent == s.sent)
  {
    if screen.Some? {
      FrameDue(codec, s.prev, Grabbed(s, screen.value));
    }
  }

  /** A tick on which nothing changed goes on, sends nothing and closes nothing. */
  lemma StillTickGoesOn(codec: Codec, s: Stream, screen: nat -> Byte, delivered: bool)
    requires s.live && s.prev == Grabbed(s, screen)
    ensures var s' := Step(codec, s, Tick(Some(screen), delivered));
            s'.live && (s'.sent, s'.cap, s'.closed, s'.prev, s'.width, s'.height) == (s.sent, s.cap, s.closed, s.prev, s.width, s.height)
  {
    var f := Grabbed(s, screen);
    assert Due(f, f) == {};
    TickGoesOnIff(codec, s, Some(screen), delivered);
  }

  // ---- when a poll swaps the capturer ----

  /** A size the guest may have changed to: readable, positive, and not the one in use. */
  predicate New(reading: Option<(int, int)>, w: nat, h: nat) {
    reading.Some? && reading.value.0 > 0 && reading.value.1 > 0 && (reading.value.0 != w || reading.value.1 != h)
  }

  /** How many of the last polls in a row read one and the same new size. */
  function InARow(polls: seq<Option<(int, int)>>, w: nat, h: nat): nat
    decreases |polls|
  {
    var n := |polls|;
    if n == 0 || !New(polls[n - 1], w, h) then 0
    else if n > 1 && polls[n - 2] == polls[n - 1] then 1 + InARow(polls[..n - 1], w, h)
    else 1
  }

  /** The polls since the current capturer was opened. */
  function Polls(s: Stream): seq<Option<(int, int)>> {
    if s.since <= |s.history| then s.history[s.since..] else []
  }

  /** The streak is 1 after an odd number of polls in a row that read the same new size, and 0 after an even one. */
  predicate StreakIs(s: Stream) {
    && s.since <= |s.history|
    && s.streak == InARow(Polls(s), s.width, s.height) % 2
    && (s.streak == 1 ==> Some(s.pend) == s.history[|s.history| - 1])
  }

  lemma InARowNext(polls: seq<Option<(int, int)>>, reading: Option<(int, int)>, w: nat, h: nat)
    ensures InARow(polls + [reading], w, h) ==
            if !New(reading, w, h) then 0
            else if polls != [] && polls[|polls| - 1] == reading then 1 + InARow(polls, w, h)
            else 1
  {
    assert (polls + [reading])[..|polls|] == polls;
  }

  lemma PollsNext(s: Stream, reading: Option<(int, int)>)
    requires s.since <= |s.history|
    ensures (s.history + [reading])[s.since..] == Polls(s) + [reading]
    ensures Polls(s) != [] ==> Polls(s)[|Polls(s)| - 1] == s.history[|s.history| - 1]
  {
  }

  /** The second poll in a row, counting from where the streak began, that reads the same new size. */
  predicate Confirms(s: Stream, reading: Option<(int, int)>) {
    && New(reading, s.width, s.height)
    && Polls(s) != [] && Polls(s)[|Polls(s)| - 1] == reading
    && InARow(Polls(s), s.width, s.height) % 2 == 1
  }

  lemma InARowPositive(polls: seq<Option<(int, int)>>, w: nat, h: nat)
    requires InARow(polls, w, h) % 2 == 1
    ensures polls != [] && New(polls[|polls| - 1], w, h)
  {
  }

  lemma StayingStreak(s: Stream, s': Stream, reading: Option<(int, int)>)
    requires StreakIs(s) && s'.history == s.history + [reading] && s'.since == s.since && (s'.width, s'.height) == (s.width, s.height)
    requires s'.streak == if !New(reading, s.width, s.height) then 0
                          else if Polls(s) != [] && Polls(s)[|Polls(s)| - 1] == reading then (1 + InARow(Polls(s), s.width, s.height)) % 2
                          else 1
    requires s'.streak == 1 ==> Some(s'.pend) == reading
    ensures StreakIs(s')
  {
    PollsNext(s, reading);
    InARowNext(Polls(s), reading, s.width, s.height);
  }

  lemma NewStreak(s: Stream)
    requires s.since == |s.history| && s.streak == 0
    ensures StreakIs(s)
  {
    assert Polls(s) == [];
  }

  lemma InARowOfLast(polls: seq<Option<(int, int)>>, w: nat, h: nat)
    requires polls != [] && New(polls[|polls| - 1], w, h)
    ensures InARow(polls, w, h) >= 1
  {
  }

  lemma PollKeepsStreak(s: Stream, reading: Option<(int, int)>, reopened: Option<(nat, nat)>, delivered: bool)
    requires StreakIs(s)
    ensures StreakIs(OnPoll(s, reading, reopened, delivered))
  {
    var s' := OnPoll(s, reading, reopened, delivered);
    PollsNext(s, reading);
    if s.streak == 1 {
      InARowPositive(Polls(s), s.width, s.height);
    }
    if s'.cap != s.cap {
      NewStreak(s');
    } else {
      StayingStreak(s, s', reading);
    }
  }

  lemma {:induction false} RunKeepsStreak(codec: Codec, w: nat, h: nat, events: seq<Event>)
    ensures StreakIs(Run(codec, Start(w, h, true, true), events))
    decreases |events|
  {
    if events != [] {
      var n := |events| - 1;
      RunKeepsStreak(codec, w, h, events[..n]);
      var s := Run(codec, Start(w, h, true, true), events[..n]);
      if events[n].Poll? {
        PollKeepsStreak(s, events[n].reading, events[n].reopened, events[n].delivered);
      }
    }
  }

  /** One poll of a live stream: everything it changes, apart from what it reads. */
  ghost predicate PollOutcome(codec: Codec, s: Stream, e: Event, s': Stream)
    requires e.Poll?
  {
    if Confirms(s, e.reading) && e.reopened.Some? then
      && s'.cap == s.cap + 1 && s'.width == e.reopened.value.0 && s'.height == e.reopened.value.1
      && s'.prev == NO_FRAME && s'.live == e.delivered
      && s'.closed == s.closed + (if e.delivered then [s.cap] else [s.cap, s.cap + 1])
      && (e.delivered ==> ReceiveAll(codec, s'.sent) == Client(s'.width, s'.height, Blank(s'.width, s'.height)))
      && (!e.delivered ==> s'.sent == s.sent)
    else
      (s'.cap, s'.width, s'.height, s'.prev, s'.live, s'.closed, s'.sent) == (s.cap, s.width, s.height, s.prev, s.live, s.closed, s.sent)
  }

  lemma ConfirmsIff(s: Stream, reading: Option<(int, int)>)
    requires StreakIs(s)
    ensures Confirms(s, reading) <==> New(reading, s.width, s.height) && s.streak == 1 && reading.value == s.pend
  {
    if s.streak == 1 {
      InARowPositive(Polls(s), s.width, s.height);
    }
  }

  lemma PollDoes(codec: Codec, s: Stream, e: Event)
    requires s.prev.WellFormed() && s.live && StreakIs(s) && e.Poll?
    ensures PollOutcome(codec, s, e, Step(codec, s, e))
  {
    ConfirmsIff(s, e.reading);
    assert s.streak <= 1;
    if e.reopened.Some? {
      ReceiveLast(codec, s.sent, Resolution(e.reopened.value.0, e.reopened.value.1));
    }
  }

  /**
   On every run, a poll of a live stream swaps the capturer if and only if it reads a
   positive size other than the one in use, the poll before read the same and started
   the streak, and a capturer can be opened. Then the old capturer is closed and the
   client, told of the new one's size, has a blank canvas of that size; a poll that
   does not swap leaves everything else as it was.
   */
  lemma PollSwapsIff(codec: Codec, w: nat, h: nat, events: seq<Event>, e: Event)
    requires e.Poll?
    ensures var s := Run(codec, Start(w, h, true, true), events);
            var s' := Run(codec, Start(w, h, true, true), events + [e]);
            s.live ==>
              && (s'.cap != s.cap <==> Confirms(s, e.reading) && e.reopened.Some?)
              && PollOutcome(codec, s, e, s')
  {
    assert (events + [e])[..|events|] == events;
    RunKeepsStreak(codec, w, h, events);
    var s := Run(codec, Start(w, h, true, true), events);
    if s.live {
      PollDoes(codec, s, e);
    }
  }

  /** Two polls in a row that read the same new size, the first of them the first since the capturer was opened, swap it. */
  lemma TwoPollsSwap(codec: Codec, w: nat, h: nat, size: (int, int), first: Option<(nat, nat)>, reopened: (nat, nat), delivered: bool)
    requires New(Some(size), w, h)
    ensures var s := Run(codec, Start(w, h, true, true), [Poll(Some(size), first, true), Poll(Some(size), Some(reopened), delivered)]);
            s.cap == 1 && (s.width, s.height) == reopened && 0 in s.closed && s.live == delivered
  {
    var e1, e2 := Poll(Some(size), first, true), Poll(Some(size), Some(reopened), delivered);
    var s0 := Start(w, h, true, true);
    assert [e1, e2][..1] == [e1] && [e1][..0] == [];
    assert Run(codec, s0, []) == s0;
    assert Run(codec, s0, [e1]) == Step(codec, s0, e1);
    assert Run(codec, s0, [e1, e2]) == Step(codec, Step(codec, s0, e1), e2);
  }

  // ---- when the stream starts and ends ----

  /** A stream starts exactly when the socket opens and the size is announced; else its capturer is closed at once. */
  lemma StartsIff(codec: Codec, w: nat, h: nat, upgraded: bool, announced: bool)
    ensures var s := Start(w, h, upgraded, announced);
            && (s.live <==> upgraded && announced)
            && (if s.live then s.closed == [] && ReceiveAll(codec, s.sent) == Client(w, h, Blank(w, h)) else s.closed == [0])
  {
    ReceiveLast(codec, [], Resolution(w, h));
    assert [] + [Resolution(w, h)] == [Resolution(w, h)];
  }

  /** A stream that has ended stays as it ended, and a disconnect ends one. */
  lemma EndsOnDisconnect(codec: Codec, s: Stream, e: Event)
    requires s.prev.WellFormed()
    ensures !s.live ==> Step(codec, s, e) == s
    ensures s.live && e.Disconnect? ==> !Step(codec, s, e).live && Step(codec, s, e).closed == s.closed + [s.cap]
  {
  }

  // ---- the colour of every pixel ----

  /** The pixel at (x, y) is what the JPEG of the tile r decodes to there. */
  ghost predicate PixelOf(codec: Codec, px: Pixels, f: Frame, r: Rect, x: nat, y: nat)
    requires f.WellFormed()
  {
    r.x <= x < r.x + r.w && r.y <= y < r.y + r.h ==>
      && r.Inside(f.width, f.height) && (x, y) in px
      && codec.encode(SubImage(f, r)).Some?
      && px[(x, y)] == codec.decode(codec.encode(SubImage(f, r)).value, r.w, r.h, x - r.x, y - r.y)
  }

  /** The canvas is the size of the frame, and each pixel is what its tile's JPEG decodes to there. */
  ghost predicate ShowsPixels(codec: Codec, c: Client, f: Frame)
    requires f.WellFormed()
  {
    && c.width == f.width && c.height == f.height
    && (forall x, y :: (x, y) in c.px <==> 0 <= x < f.width && 0 <= y < f.height)
    && forall r, x: nat, y: nat :: r in Grid(f.width, f.height) ==> PixelOf(codec, c.px, f, r, x, y)
  }

  lemma BlankKeys(w: nat, h: nat)
    ensures forall x, y :: (x, y) in Blank(w, h) <==> 0 <= x < w && 0 <= y < h
  {
  }

  lemma TilePixel(codec: Codec, px: Pixels, f: Frame, r: Rect, x: nat, y: nat)
    requires f.WellFormed() && r.Inside(f.width, f.height) && ShowsTile(codec, px, f, r)
    requires px.Keys == Blank(f.width, f.height).Keys
    ensures PixelOf(codec, px, f, r, x, y)
  {
    BlankKeys(f.width, f.height);
    if r.x <= x < r.x + r.w && r.y <= y < r.y + r.h {
      var p := (x, y);
      assert p in Blank(f.width, f.height) && r.Covers(p.0, p.1);
    }
  }

  lemma FramePixels(codec: Codec, px: Pixels, f: Frame)
    requires f.WellFormed() && AllInside(Grid(f.width, f.height), f.width, f.height) && ShowsFrame(codec, px, f)
    ensures ShowsPixels(codec, Client(f.width, f.height, px), f)
  {
    BlankKeys(f.width, f.height);
    assert forall x, y :: (x, y) in px <==> (x, y) in Blank(f.width, f.height);
    forall r, x: nat, y: nat | r in Grid(f.width, f.height)
      ensures PixelOf(codec, px, f, r, x, y)
    {
      TilePixel(codec, px, f, r, x, y);
    }
  }

  lemma WholeFramePixels(codec: Codec, f: Frame)
    requires f.WellFormed() && f.width > 0 && FrameTiles(codec, NO_FRAME, f).Some?
    ensures ShowsPixels(codec, Client(f.width, f.height, WholeFrame(codec, f)), f)
  {
    GridInside(f.width, f.height);
    DeltaShows(codec, Blank(f.width, f.height), NO_FRAME, f);
    FramePixels(codec, WholeFrame(codec, f), f);
  }

  /** After a tick that kept the stream going, every pixel of the client's canvas has the colour its tile's JPEG gives there. */
  lemma TickShowsPixels(codec: Codec, w: nat, h: nat, events: seq<Event>, screen: nat -> Byte, delivered: bool)
    requires SizeOk(w, h) && ShortTiles(codec) && forall e :: e in events ==> SizesOk(e)
    ensures var s := Run(codec, Start(w, h, true, true), events);
            var s' := Run(codec, Start(w, h, true, true), events + [Tick(Some(screen), delivered)]);
            s'.live ==> ShowsPixels(codec, ReceiveAll(codec, s'.sent), Grabbed(s, screen))
  {
    TickShowsWholeFrame(codec, w, h, events, screen, delivered);
    RunInSync(codec, w, h, true, true, events);
    var s := Run(codec, Start(w, h, true, true), events);
    if Run(codec, Start(w, h, true, true), events + [Tick(Some(screen), delivered)]).live {
      WholeFramePixels(codec, Grabbed(s, screen));
    }
  }

  /** Decoding gives back column i of row j of what was encoded. */
  ghost predicate Lossless(codec: Codec) {
    forall rows: seq<seq<Byte>>, w: nat, i: nat, j: nat :: DecodesTo(codec, rows, w, i, j)
  }

  predicate DecodesTo(codec: Codec, rows: seq<seq<Byte>>, w: nat, i: nat, j: nat) {
    codec.encode(rows).Some? && i < w && j < |rows| && |rows[j]| == w * 4 ==>
      codec.decode(codec.encode(rows).value, w, |rows|, i, j) == Colour(rows[j][4 * i], rows[j][4 * i + 1], rows[j][4 * i + 2])
  }

  lemma RowByte(f: Frame, x: nat, y: nat, n: nat, k: nat)
    requires f.WellFormed() && x + n <= f.width && y < f.height && k < n * 4
    ensures 0 <= y * (f.width * 4) + x * 4 + k < |f.pix| && Row(f, x, y, n)[k] == f.pix[y * (f.width * 4) + x * 4 + k]
  {
    RowInBounds(f, x, y, n);
  }

  lemma PlaceOf(w: nat, x: nat, y: nat, i: nat, k: nat)
    ensures y * (w * 4) + x * 4 + (4 * i + k) == 4 * (y * w + (x + i)) + k
  {
    assert y * (w * 4) == 4 * (y * w);
  }

  lemma GrabbedAt(s: Stream, screen: nat -> Byte, k: nat)
    requires k < |Grabbed(s, screen).pix|
    ensures Grabbed(s, screen).pix[k] == screen(k)
  {
  }

  /** Byte k of the pixel at column i of row j of a tile's image, as the screen has it. */
  lemma SubImageByte(s: Stream, screen: nat -> Byte, r: Rect, i: nat, j: nat, k: nat)
    requires r.Inside(s.width, s.height) && i < r.w && j < r.h && k < 4
    ensures |SubImage(Grabbed(s, screen), r)[j]| == r.w * 4
    ensures SubImage(Grabbed(s, screen), r)[j][4 * i + k] == screen(4 * ((r.y + j) * s.width + (r.x + i)) + k)
  {
    var f := Grabbed(s, screen);
    RowByte(f, r.x, r.y + j, r.w, 4 * i + k);
    PlaceOf(s.width, r.x, r.y + j, i, k);
    GrabbedAt(s, screen, 4 * ((r.y + j) * s.width + (r.x + i)) + k);
  }

  /** The pixel the guest's screen has at column x, row y: three bytes of the four at its place. */
  function ScreenColour(screen: nat -> Byte, w: nat, x: nat, y: nat): Colour {
    Colour(screen(4 * (y * w + x)), screen(4 * (y * w + x) + 1), screen(4 * (y * w + x) + 2))
  }

  lemma LosslessPixel(codec: Codec, s: Stream, screen: nat -> Byte, r: Rect, i: nat, j: nat)
    requires Lossless(codec) && r.Inside(s.width, s.height) && i < r.w && j < r.h
    requires codec.encode(SubImage(Grabbed(s, screen), r)).Some?
    ensures codec.decode(codec.encode(SubImage(Grabbed(s, screen), r)).value, r.w, r.h, i, j)
            == ScreenColour(screen, s.width, r.x + i, r.y + j)
  {
    SubImageByte(s, screen, r, i, j, 0);
    SubImageByte(s, screen, r, i, j, 1);
    SubImageByte(s, screen, r, i, j, 2);
    assert DecodesTo(codec, SubImage(Grabbed(s, screen), r), r.w, i, j);
  }

  lemma ScreenAt(codec: Codec, c: Client, s: Stream, screen: nat -> Byte, x: nat, y: nat)
    requires Lossless(codec) && ShowsPixels(codec, c, Grabbed(s, screen)) && x < s.width && y < s.height
    ensures (x, y) in c.px && c.px[(x, y)] == ScreenColour(screen, s.width, x, y)
  {
    GridPartitions(s.width, s.height);
    assert Covered(Grid(s.width, s.height), x, y);
    var k :| 0 <= k < |Grid(s.width, s.height)| && Grid(s.width, s.height)[k].Covers(x, y);
    var r := Grid(s.width, s.height)[k];
    assert r in Grid(s.width, s.height);
    assert PixelOf(codec, c.px, Grabbed(s, screen), r, x, y);
    LosslessPixel(codec, s, screen, r, x - r.x, y - r.y);
  }

  /** With a lossless codec the client sees the guest's screen, pixel for pixel. */
  lemma LosslessShowsScreen(codec: Codec, w: nat, h: nat, events: seq<Event>, screen: nat -> Byte, delivered: bool)
    requires SizeOk(w, h) && ShortTiles(codec) && Lossless(codec) && forall e :: e in events ==> SizesOk(e)
    ensures var s := Run(codec, Start(w, h, true, true), events);
            var s' := Run(codec, Start(w, h, true, true), events + [Tick(Some(screen), delivered)]);
            s'.live ==>
              forall x: nat, y: nat :: x < s.width && y < s.height ==>
                (x, y) in ReceiveAll(codec, s'.sent).px && ReceiveAll(codec, s'.sent).px[(x, y)] == ScreenColour(screen, s.width, x, y)
  {
    TickShowsPixels(codec, w, h, events, screen, delivered);
    var s := Run(codec, Start(w, h, true, true), events);
    var s' := Run(codec, Start(w, h, true, true), events + [Tick(Some(screen), delivered)]);
    if s'.live {
      forall x: nat, y: nat | x < s.width && y < s.height
        ensures (x, y) in ReceiveAll(codec, s'.sent).px
        ensures ReceiveAll(codec, s'.sent).px[(x, y)] == ScreenColour(screen, s.width, x, y)
      {
        ScreenAt(codec, ReceiveAll(codec, s'.sent), s, screen, x, y);
      }
    }
  }
}
