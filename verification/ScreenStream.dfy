/**
 The agent's stream loop and the client at the other end of the socket.

 Each turn of the loop handles one event: the client went away, the slow timer
 re-read the guest's resolution, or the fast timer grabbed a frame. Messages are
 applied by the client in the order they were sent.
 */
module ScreenStream {
  import opened Common
  import opened Frames
  import opened TileWire
  import opened Canvas

  datatype Msg = Resolution(w: nat, h: nat) | TileData(data: seq<Byte>)

  datatype Client = Client(width: nat, height: nat, px: Pixels)

  const NEW_CLIENT := Client(0, 0, map[])

  function Receive(codec: Codec, c: Client, m: Msg): Client {
    match m
    case Resolution(w, h) => Client(w, h, Blank(w, h))
    case TileData(data) => c.(px := DrawAll(codec, c.px, ParseMessage(data).tiles))
  }

  function ReceiveAll(codec: Codec, ms: seq<Msg>): Client {
    if ms == [] then NEW_CLIENT
    else Receive(codec, ReceiveAll(codec, ms[..|ms| - 1]), ms[|ms| - 1])
  }

  /**
   Poll: what the resolution read gave, what size a capturer opened now would
   have (None: it cannot be opened), and whether the announcement can be sent.
   Tick: the bytes on the guest's screen (None: the grab fails), and whether the
   message can be sent.
   */
  datatype Event =
    | Disconnect
    | Poll(reading: Option<(int, int)>, reopened: Option<(nat, nat)>, delivered: bool)
    | Tick(screen: Option<nat -> Byte>, delivered: bool)

  /**
   Capturers are numbered in the order they are opened; cap is the current one
   and closed lists those closed so far. history is what each poll read, and
   since how many of those polls came before the current capturer was opened.
   */
  datatype Stream = Stream(
    width: nat, height: nat, prev: Frame,
    pend: (int, int), streak: nat,
    sent: seq<Msg>, live: bool,
    cap: nat, closed: seq<nat>, history: seq<Option<(int, int)>>, since: nat)

  /** Leaving the loop runs the deferred close of whichever capturer is current. */
  function Stop(s: Stream): Stream {
    s.(live := false, closed := s.closed + [s.cap])
  }

  function Start(w: nat, h: nat, upgraded: bool, announced: bool): Stream {
    var s := Stream(w, h, NO_FRAME, (0, 0), 0, [], true, 0, [], [], 0);
    if upgraded && announced then s.(sent := [Resolution(w, h)]) else Stop(s)
  }

  /** A size worth switching to: readable, positive and not the one in use. */
  predicate Candidate(s: Stream, reading: Option<(int, int)>) {
    reading.Some? && reading.value.0 > 0 && reading.value.1 > 0 && reading.value != (s.width, s.height)
  }

  function Swap(s: Stream, w: nat, h: nat, delivered: bool): (s': Stream)
    ensures s'.prev == NO_FRAME
  {
    var s' := s.(width := w, height := h, prev := NO_FRAME, cap := s.cap + 1, closed := s.closed + [s.cap], since := |s.history|);
    if delivered then s'.(sent := s.sent + [Resolution(w, h)]) else Stop(s')
  }

  function OnPoll(s: Stream, reading: Option<(int, int)>, reopened: Option<(nat, nat)>, delivered: bool): (s': Stream)
    ensures s'.prev == s.prev || s'.prev == NO_FRAME
  {
    var s' := s.(history := s.history + [reading]);
    if !Candidate(s, reading) then s'.(streak := 0)
    else if reading.value != s.pend || s.streak == 0 then s'.(pend := reading.value, streak := 1)
    else match reopened
      case None => s'.(streak := 0)
      case Some(size) => Swap(s'.(streak := 0), size.0, size.1, delivered)
  }

  function Grabbed(s: Stream, screen: nat -> Byte): (f: Frame)
    ensures f.WellFormed() && f.width == s.width && f.height == s.height
  {
    Frame(s.width, s.height, seq<Byte>(s.width * s.height * 4, i requires 0 <= i => screen(i)))
  }

  ghost function OnTick(codec: Codec, s: Stream, screen: Option<nat -> Byte>, delivered: bool): Stream
    requires s.prev.WellFormed()
  {
    if screen.None? then Stop(s)
    else
      var f := Grabbed(s, screen.value);
      match FrameTiles(codec, s.prev, f)
      case None => Stop(s)
      case Some(tiles) =>
        var s' := s.(prev := f);
        if |tiles| % MAX16 == 0 then s'
        else if delivered then s'.(sent := s.sent + [TileData(Message(tiles))])
        else Stop(s')
  }

  ghost function Step(codec: Codec, s: Stream, e: Event): (s': Stream)
    requires s.prev.WellFormed()
    ensures s'.prev.WellFormed()
  {
    if !s.live then s
    else match e
      case Disconnect => Stop(s)
      case Poll(reading, reopened, delivered) => OnPoll(s, reading, reopened, delivered)
      case Tick(screen, delivered) => OnTick(codec, s, screen, delivered)
  }

  ghost function Run(codec: Codec, s: Stream, events: seq<Event>): (s': Stream)
    requires s.prev.WellFormed()
    ensures s'.prev.WellFormed()
  {
    if events == [] then s
    else Step(codec, Run(codec, s, events[..|events| - 1]), events[|events| - 1])
  }

  // ---- the loop itself ----

  class StreamLoop {
    const codec: Codec
    var width: nat
    var height: nat
    var prev: Frame
    var pendW: int
    var pendH: int
    var pendStreak: nat
    var sent: seq<Msg>
    var live: bool
    var cap: nat
    var closed: seq<nat>
    ghost var history: seq<Option<(int, int)>>
    ghost var since: nat

    ghost predicate Valid()
      reads this
    {
      prev.WellFormed() && pendStreak < 2
    }

    ghost function State(): Stream
      reads this
    {
      Stream(width, height, prev, (pendW, pendH), pendStreak, sent, live, cap, closed, history, since)
    }

    constructor (codec: Codec, w: nat, h: nat, upgraded: bool, announced: bool)
      ensures Valid() && this.codec == codec && State() == Start(w, h, upgraded, announced)
    {
      this.codec := codec;
      width, height, prev := w, h, NO_FRAME;
      pendW, pendH, pendStreak := 0, 0, 0;
      live := upgraded && announced;
      sent := if upgraded && announced then [Resolution(w, h)] else [];
      cap, closed := 0, if upgraded && announced then [] else [0];
      history, since := [], 0;
    }

    method Close()
      modifies `live, `closed
      ensures !live && closed == old(closed) + [cap]
    {
      live, closed := false, closed + [cap];
    }

    method HandlePoll(reading: Option<(int, int)>, reopened: Option<(nat, nat)>, delivered: bool)
      requires Valid() && live
      modifies this
      ensures Valid() && State() == OnPoll(old(State()), reading, reopened, delivered)
    {
      history := history + [reading];
      if reading.None? || reading.value.0 <= 0 || reading.value.1 <= 0 || (reading.value.0 == width && reading.value.1 == height) {
        pendStreak := 0;
        return;
      }
      var nw, nh := reading.value.0, reading.value.1;
      if nw == pendW && nh == pendH {
        pendStreak := pendStreak + 1;
      } else {
        pendW, pendH, pendStreak := nw, nh, 1;
      }
      if pendStreak < 2 {
        return;
      }
      pendStreak := 0;
      if reopened.None? {
        return;
      }
      SwapCapturer(reopened.value.0, reopened.value.1, delivered);
    }

    /** Puts the new capturer in place, closes the old one, forgets the frame and announces the new size. */
    method SwapCapturer(w: nat, h: nat, delivered: bool)
      requires Valid() && live
      modifies this
      ensures Valid() && State() == Swap(old(State()), w, h, delivered)
    {
      closed := closed + [cap];
      cap, since := cap + 1, |history|;
      prev := NO_FRAME;
      width, height := w, h;
      if !delivered {
        Close();
        return;
      }
      sent := sent + [Resolution(width, height)];
    }

    method HandleTick(screen: Option<nat -> Byte>, delivered: bool)
      requires Valid() && live
      modifies this
      ensures Valid() && State() == OnTick(codec, old(State()), screen, delivered)
    {
      if screen.None? {
        Close();
        return;
      }
      var frame := Frame(width, height, seq<Byte>(width * height * 4, i requires 0 <= i => screen.value(i)));
      var encoded := EncodeChangedTiles(codec, prev, frame);
      if encoded.None? {
        Close();
        return;
      }
      prev := frame;
      if encoded.value.0 == 0 {
        return;
      }
      if !delivered {
        Close();
        return;
      }
      sent := sent + [TileData(encoded.value.1)];
    }

    method Serve(events: seq<Event>)
      requires Valid()
      modifies this
      ensures Valid() && State() == Run(codec, old(State()), events)
    {
      var i := 0;
      while i < |events|
        invariant i <= |events| && Valid()
        invariant State() == Run(codec, old(State()), events[..i])
      {
        assert events[..i + 1][..i] == events[..i];
        if live {
          match events[i] {
            case Disconnect => Close();
            case Poll(reading, reopened, delivered) => HandlePoll(reading, reopened, delivered);
            case Tick(screen, delivered) => HandleTick(screen, delivered);
          }
        }
        i := i + 1;
      }
      assert events[..i] == events;
    }
  }

  // ---- the client sees what a whole-frame sender would show ----

  /** The hypotheses on the environment: sizes the wire can carry, JPEGs shorter than 4 GiB. */
  predicate SizeOk(w: nat, h: nat) {
    w > 0 && h > 0 && FrameFits(w, h)
  }

  predicate SizesOk(e: Event) {
    e.Poll? && e.reopened.Some? ==> SizeOk(e.reopened.value.0, e.reopened.value.1)
  }

  ghost predicate ShortTiles(codec: Codec) {
    forall image :: codec.encode(image).Some? ==> |codec.encode(image).value| < MAX32
  }

  /** What a whole-frame sender would have on the canvas: nothing yet, or all of the last frame. */
  ghost predicate Displays(codec: Codec, c: Client, w: nat, h: nat, last: Frame)
    requires last.WellFormed()
  {
    && c.width == w && c.height == h
    && if last == NO_FRAME then c.px == Blank(w, h)
       else last.width == w && last.height == h && FrameTiles(codec, NO_FRAME, last).Some? && c.px == WholeFrame(codec, last)
  }

  ghost predicate InSync(codec: Codec, s: Stream)
    requires s.prev.WellFormed()
  {
    SizeOk(s.width, s.height) && (s.live ==> Displays(codec, ReceiveAll(codec, s.sent), s.width, s.height, s.prev))
  }

  lemma {:induction false} FewerTiles(codec: Codec, prev: Frame, cur: Frame, rs: seq<Rect>)
    requires prev.WellFormed() && cur.WellFormed() && AllInside(rs, cur.width, cur.height)
    ensures ChangedTiles(codec, prev, cur, rs).Some? ==> |ChangedTiles(codec, prev, cur, rs).value| <= |rs|
    decreases |rs|
  {
    if rs != [] {
      FewerTiles(codec, prev, cur, rs[1..]);
    }
  }

  lemma DeltaFits(codec: Codec, prev: Frame, cur: Frame)
    requires prev.WellFormed() && cur.WellFormed() && SizeOk(cur.width, cur.height) && ShortTiles(codec)
    requires FrameTiles(codec, prev, cur).Some?
    ensures Fits(FrameTiles(codec, prev, cur).value)
  {
    var w, h := cur.width, cur.height;
    GridPartitions(w, h);
    GridFitsIff(w, h);
    FewerTiles(codec, prev, cur, Grid(w, h));
    ChangedTilesExact(codec, prev, cur, Grid(w, h));
  }

  lemma ReceiveLast(codec: Codec, ms: seq<Msg>, m: Msg)
    ensures ReceiveAll(codec, ms + [m]) == Receive(codec, ReceiveAll(codec, ms), m)
  {
    assert (ms + [m])[..|ms|] == ms;
  }

  lemma DeltaDisplays(codec: Codec, c: Client, w: nat, h: nat, prev: Frame, f: Frame)
    requires prev.WellFormed() && f.WellFormed() && f.width == w && f.height == h
    requires SizeOk(w, h) && ShortTiles(codec) && Displays(codec, c, w, h, prev)
    requires FrameTiles(codec, prev, f).Some?
    ensures var tiles := FrameTiles(codec, prev, f).value;
            && Displays(codec, Receive(codec, c, TileData(Message(tiles))), w, h, f)
            && (|tiles| % MAX16 == 0 ==> Displays(codec, c, w, h, f))
  {
    var tiles := FrameTiles(codec, prev, f).value;
    if prev != NO_FRAME {
      DrawAllKeys(codec, Blank(w, h), FrameTiles(codec, NO_FRAME, prev).value);
    }
    DeltaRefinesWhole(codec, c.px, prev, f);
    DeltaFits(codec, prev, f);
    RoundTripIffFits(tiles);
    assert f != NO_FRAME;
    if |tiles| % MAX16 == 0 {
      assert tiles == [];
    }
  }

  lemma TickInSync(codec: Codec, s: Stream, screen: nat -> Byte, delivered: bool)
    requires s.prev.WellFormed() && s.live && InSync(codec, s) && ShortTiles(codec)
    ensures var s' := OnTick(codec, s, Some(screen), delivered);
            && InSync(codec, s')
            && (s'.live ==> s'.prev == Grabbed(s, screen) && s'.width == s.width && s'.height == s.height)
  {
    var f := Grabbed(s, screen);
    var tiles := FrameTiles(codec, s.prev, f);
    if tiles.Some? {
      DeltaDisplays(codec, ReceiveAll(codec, s.sent), s.width, s.height, s.prev, f);
      ReceiveLast(codec, s.sent, TileData(Message(tiles.value)));
    }
  }

  lemma SwapInSync(codec: Codec, s: Stream, w: nat, h: nat, delivered: bool)
    requires SizeOk(w, h)
    ensures InSync(codec, Swap(s, w, h, delivered))
  {
    ReceiveLast(codec, s.sent, Resolution(w, h));
  }

  lemma PollSwapsOrKeeps(s: Stream, e: Event)
    requires e.Poll?
    ensures var s' := OnPoll(s, e.reading, e.reopened, e.delivered);
            || (s'.width, s'.height, s'.prev, s'.sent, s'.live, s'.cap) == (s.width, s.height, s.prev, s.sent, s.live, s.cap)
            || (e.reopened.Some? &&
                s' == Swap(s.(history := s.history + [e.reading], streak := 0), e.reopened.value.0, e.reopened.value.1, e.delivered))
  {
  }

  lemma SameInSync(codec: Codec, s: Stream, s': Stream)
    requires s.prev.WellFormed() && InSync(codec, s)
    requires (s'.width, s'.height, s'.prev, s'.sent, s'.live) == (s.width, s.height, s.prev, s.sent, s.live)
    ensures InSync(codec, s')
  {
  }

  lemma PollInSync(codec: Codec, s: Stream, e: Event)
    requires s.prev.WellFormed() && s.live && InSync(codec, s) && e.Poll? && SizesOk(e)
    ensures var s' := OnPoll(s, e.reading, e.reopened, e.delivered);
            s'.prev.WellFormed() && InSync(codec, s')
  {
    PollSwapsOrKeeps(s, e);
    var s' := OnPoll(s, e.reading, e.reopened, e.delivered);
    if (s'.width, s'.height, s'.prev, s'.sent, s'.live) == (s.width, s.height, s.prev, s.sent, s.live) {
      SameInSync(codec, s, s');
    } else {
      SwapInSync(codec, s.(history := s.history + [e.reading], streak := 0), e.reopened.value.0, e.reopened.value.1, e.delivered);
    }
  }

  lemma {:induction false} RunInSync(codec: Codec, w: nat, h: nat, upgraded: bool, announced: bool, events: seq<Event>)
    requires SizeOk(w, h) && ShortTiles(codec) && forall e :: e in events ==> SizesOk(e)
    ensures InSync(codec, Run(codec, Start(w, h, upgraded, announced), events))
    decreases |events|
  {
    var s0 := Start(w, h, upgraded, announced);
    if events == [] {
      ReceiveLast(codec, [], Resolution(w, h));
      assert [] + [Resolution(w, h)] == [Resolution(w, h)];
    } else {
      var before, e := events[..|events| - 1], events[|events| - 1];
      RunInSync(codec, w, h, upgraded, announced, before);
      var s := Run(codec, s0, before);
      if s.live && e.Tick? && e.screen.Some? {
        TickInSync(codec, s, e.screen.value, e.delivered);
      } else if s.live && e.Poll? {
        PollInSync(codec, s, e);
      }
    }
  }

  /**
   On every run: after a tick that did not end the stream, the client's canvas
   has the announced size and is, pixel for pixel, what a sender of whole frames
   would have painted for the frame just grabbed.
   */
  lemma TickShowsWholeFrame(codec: Codec, w: nat, h: nat, events: seq<Event>, screen: nat -> Byte, delivered: bool)
    requires SizeOk(w, h) && ShortTiles(codec) && forall e :: e in events ==> SizesOk(e)
    ensures var s := Run(codec, Start(w, h, true, true), events);
            var s' := Run(codec, Start(w, h, true, true), events + [Tick(Some(screen), delivered)]);
            s'.live ==>
              && FrameTiles(codec, NO_FRAME, Grabbed(s, screen)).Some?
              && ReceiveAll(codec, s'.sent) == Client(s.width, s.height, WholeFrame(codec, Grabbed(s, screen)))
  {
    var s0, e := Start(w, h, true, true), Tick(Some(screen), delivered);
    assert (events + [e])[..|events|] == events;
    RunInSync(codec, w, h, true, true, events);
    var s := Run(codec, s0, events);
    if s.live {
      TickInSync(codec, s, screen, delivered);
      assert Grabbed(s, screen) != NO_FRAME;
    }
  }

  // ---- the draws of a message are concurrent ----

  /** What the client makes of a message whose draws complete in the given order. */
  function ReceiveIn(codec: Codec, c: Client, m: Msg, order: seq<nat>): Client
    requires OrderFor(m, order)
  {
    match m
    case Resolution(w, h) => Client(w, h, Blank(w, h))
    case TileData(data) => c.(px := DrawInOrder(codec, c.px, ParseMessage(data).tiles, order))
  }

  predicate OrderFor(m: Msg, order: seq<nat>) {
    m.TileData? ==> IsOrder(order, |ParseMessage(m.data).tiles|)
  }

  /** An order of completion for each message. */
  predicate OrdersFor(ms: seq<Msg>, orders: seq<seq<nat>>) {
    |orders| == |ms| && forall i :: 0 <= i < |ms| ==> OrderFor(ms[i], orders[i])
  }

  function ReceiveAllIn(codec: Codec, ms: seq<Msg>, orders: seq<seq<nat>>): Client
    requires OrdersFor(ms, orders)
    decreases |ms|
  {
    if ms == [] then NEW_CLIENT
    else
      var n := |ms| - 1;
      ReceiveIn(codec, ReceiveAllIn(codec, ms[..n], orders[..n]), ms[n], orders[n])
  }

  ghost predicate DrawsDisjoint(m: Msg) {
    m.TileData? ==> TilesDisjoint(ParseMessage(m.data).tiles)
  }

  ghost predicate AllDisjoint(ms: seq<Msg>) {
    forall i :: 0 <= i < |ms| ==> DrawsDisjoint(ms[i])
  }

  lemma {:induction false} AnyOrders(codec: Codec, ms: seq<Msg>, orders: seq<seq<nat>>)
    requires OrdersFor(ms, orders) && AllDisjoint(ms)
    ensures ReceiveAllIn(codec, ms, orders) == ReceiveAll(codec, ms)
    decreases |ms|
  {
    if ms != [] {
      var n := |ms| - 1;
      AnyOrders(codec, ms[..n], orders[..n]);
      if ms[n].TileData? {
        DrawOrderIrrelevant(codec, ReceiveAll(codec, ms[..n]).px, ParseMessage(ms[n].data).tiles, orders[n]);
      }
    }
  }

  lemma DeltaDisjoint(codec: Codec, prev: Frame, f: Frame)
    requires prev.WellFormed() && f.WellFormed() && SizeOk(f.width, f.height) && ShortTiles(codec)
    requires FrameTiles(codec, prev, f).Some?
    ensures DrawsDisjoint(TileData(Message(FrameTiles(codec, prev, f).value)))
  {
    DeltaFits(codec, prev, f);
    RoundTripIffFits(FrameTiles(codec, prev, f).value);
    GridPartitions(f.width, f.height);
    ChangedTilesExact(codec, prev, f, Grid(f.width, f.height));
  }

  lemma StepSendsDisjoint(codec: Codec, s: Stream, e: Event)
    requires s.prev.WellFormed() && SizeOk(s.width, s.height) && ShortTiles(codec) && AllDisjoint(s.sent)
    ensures AllDisjoint(Step(codec, s, e).sent)
  {
    if s.live && e.Tick? && e.screen.Some? {
      var f := Grabbed(s, e.screen.value);
      if FrameTiles(codec, s.prev, f).Some? {
        DeltaDisjoint(codec, s.prev, f);
      }
    }
  }

  lemma {:induction false} RunSendsDisjoint(codec: Codec, w: nat, h: nat, events: seq<Event>)
    requires SizeOk(w, h) && ShortTiles(codec) && forall e :: e in events ==> SizesOk(e)
    ensures AllDisjoint(Run(codec, Start(w, h, true, true), events).sent)
    decreases |events|
  {
    if events != [] {
      var n := |events| - 1;
      RunSendsDisjoint(codec, w, h, events[..n]);
      RunInSync(codec, w, h, true, true, events[..n]);
      StepSendsDisjoint(codec, Run(codec, Start(w, h, true, true), events[..n]), events[n]);
    }
  }

  /**
   TickShowsWholeFrame for a client that draws concurrently: in whatever order the
   draws of each message complete, the canvas is the whole-frame picture.
   */
  lemma TickShowsInAnyOrder(codec: Codec, w: nat, h: nat, events: seq<Event>, screen: nat -> Byte, delivered: bool, orders: seq<seq<nat>>)
    requires SizeOk(w, h) && ShortTiles(codec) && forall e :: e in events ==> SizesOk(e)
    requires OrdersFor(Run(codec, Start(w, h, true, true), events + [Tick(Some(screen), delivered)]).sent, orders)
    ensures var s := Run(codec, Start(w, h, true, true), events);
            var s' := Run(codec, Start(w, h, true, true), events + [Tick(Some(screen), delivered)]);
            s'.live ==>
              && FrameTiles(codec, NO_FRAME, Grabbed(s, screen)).Some?
              && ReceiveAllIn(codec, s'.sent, orders) == Client(s.width, s.height, WholeFrame(codec, Grabbed(s, screen)))
  {
    var all := events + [Tick(Some(screen), delivered)];
    TickShowsWholeFrame(codec, w, h, events, screen, delivered);
    RunSendsDisjoint(codec, w, h, all);
    AnyOrders(codec, Run(codec, Start(w, h, true, true), all).sent, orders);
  }

  // ---- past the bound ----

  lemma {:induction false} NothingChanged(codec: Codec, f: Frame, rs: seq<Rect>)
    requires f.WellFormed() && AllInside(rs, f.width, f.height)
    ensures ChangedTiles(codec, f, f, rs) == Some([])
    decreases |rs|
  {
    if rs != [] {
      NothingChanged(codec, f, rs[1..]);
    }
  }

  lemma SameFrameSendsNothing(codec: Codec, f: Frame)
    requires f.WellFormed()
    ensures FrameTiles(codec, f, f) == Some([])
  {
    GridInside(f.width, f.height);
    NothingChanged(codec, f, Grid(f.width, f.height));
  }

  /** The guest's screen holds still for n ticks. */
  function StillFor(screen: nat -> Byte, n: nat): seq<Event> {
    seq(n, _ => Tick(Some(screen), true))
  }

  lemma UncountedTickSendsNothing(codec: Codec, s: Stream, screen: nat -> Byte)
    requires s.width > 0 && |Grid(s.width, s.height)| % MAX16 == 0 && s.prev.WellFormed()
    requires s.prev == NO_FRAME || s.prev == Grabbed(s, screen)
    ensures var s' := OnTick(codec, s, Some(screen), true);
            s'.sent == s.sent && (s'.live ==> s'.prev == Grabbed(s, screen))
  {
    var f := Grabbed(s, screen);
    if s.prev == f {
      SameFrameSendsNothing(codec, f);
    } else if FrameTiles(codec, s.prev, f).Some? {
      FirstPaintCount(codec, s.prev, f);
    }
  }

  /** The stream has sent its first announcement and nothing else. */
  ghost predicate NothingPainted(s: Stream, w: nat, h: nat, screen: nat -> Byte) {
    && s.sent == [Resolution(w, h)] && s.width == w && s.height == h
    && (s.live ==> s.prev == NO_FRAME || s.prev == Grabbed(s, screen))
  }

  lemma {:induction false} StillScreenNotSent(codec: Codec, w: nat, h: nat, screen: nat -> Byte, n: nat)
    requires w > 0 && |Grid(w, h)| % MAX16 == 0
    ensures NothingPainted(Run(codec, Start(w, h, true, true), StillFor(screen, n)), w, h, screen)
  {
    if n > 0 {
      StillScreenNotSent(codec, w, h, screen, n - 1);
      assert StillFor(screen, n)[..n - 1] == StillFor(screen, n - 1);
      var s := Run(codec, Start(w, h, true, true), StillFor(screen, n - 1));
      if s.live {
        UncountedTickSendsNothing(codec, s, screen);
      }
    }
  }

  /**
   Past the bound the law fails: where the number of tiles is a multiple of 65536,
   nothing is ever sent of a screen that holds still, however long the stream goes
   on, so the client's canvas stays as it was cleared.
   */
  lemma UncountedScreenNeverPainted(codec: Codec, w: nat, h: nat, screen: nat -> Byte, n: nat)
    requires w > 0 && |Grid(w, h)| % MAX16 == 0
    ensures ReceiveAll(codec, Run(codec, Start(w, h, true, true), StillFor(screen, n)).sent) == Client(w, h, Blank(w, h))
  {
    StillScreenNotSent(codec, w, h, screen, n);
    ReceiveLast(codec, [], Resolution(w, h));
    assert [] + [Resolution(w, h)] == [Resolution(w, h)];
  }

  /**
   On every run: a poll that did not end the stream either leaves the client, the
   size and the previous frame alone, or clears the canvas to the new size and
   forgets the previous frame, so that the next tick repaints everything.
   */
  lemma PollKeepsOrClears(codec: Codec, w: nat, h: nat, events: seq<Event>, e: Event)
    requires SizeOk(w, h) && ShortTiles(codec) && forall e' :: e' in events + [e] ==> SizesOk(e')
    requires e.Poll?
    ensures var s := Run(codec, Start(w, h, true, true), events);
            var s' := Run(codec, Start(w, h, true, true), events + [e]);
            s'.live ==>
              if s'.cap == s.cap then s'.prev == s.prev && ReceiveAll(codec, s'.sent) == ReceiveAll(codec, s.sent)
              else s'.prev == NO_FRAME && ReceiveAll(codec, s'.sent) == Client(s'.width, s'.height, Blank(s'.width, s'.height))
  {
    assert (events + [e])[..|events|] == events;
    assert forall e' :: e' in events ==> e' in events + [e];
    RunInSync(codec, w, h, true, true, events);
    var s := Run(codec, Start(w, h, true, true), events);
    if s.live && e.reopened.Some? {
      ReceiveLast(codec, s.sent, Resolution(e.reopened.value.0, e.reopened.value.1));
    }
  }

  // ---- debounce and capturer ownership ----

  /** A streak of k: the last k polls all read the pending size, which is not the one in use. */
  ghost predicate StreakMeans(s: Stream) {
    && s.streak <= 1 && s.streak <= |s.history|
    && (s.streak > 0 ==> Candidate(s, Some(s.pend)))
    && forall i :: |s.history| - s.streak <= i < |s.history| ==> s.history[i] == Some(s.pend)
  }

  /** Each capturer is closed once, in order; the current one is open exactly while streaming. */
  ghost predicate ClosedInOrder(s: Stream) {
    s.closed == seq(if s.live then s.cap else s.cap + 1, i => i)
  }

  lemma StepDebounced(codec: Codec, s: Stream, e: Event)
    requires s.prev.WellFormed() && StreakMeans(s) && ClosedInOrder(s)
    ensures StreakMeans(Step(codec, s, e)) && ClosedInOrder(Step(codec, s, e))
  {
    if e.Poll? {
      assert (s.history + [e.reading])[|s.history|] == e.reading;
    }
  }

  lemma {:induction false} RunDebounced(codec: Codec, w: nat, h: nat, upgraded: bool, announced: bool, events: seq<Event>)
    ensures var s := Run(codec, Start(w, h, upgraded, announced), events);
            StreakMeans(s) && ClosedInOrder(s)
    decreases |events|
  {
    if events != [] {
      var before := events[..|events| - 1];
      RunDebounced(codec, w, h, upgraded, announced, before);
      StepDebounced(codec, Run(codec, Start(w, h, upgraded, announced), before), events[|events| - 1]);
    }
  }

  /** On every run a capturer is swapped only when the last two polls read the same new size. */
  lemma SwapNeedsTwo(codec: Codec, w: nat, h: nat, events: seq<Event>, e: Event)
    ensures var s := Run(codec, Start(w, h, true, true), events);
            var s' := Run(codec, Start(w, h, true, true), events + [e]);
            s'.cap != s.cap ==>
              && e.Poll? && Candidate(s, e.reading) && s'.cap == s.cap + 1
              && |s'.history| >= 2 && s'.history[|s'.history| - 1] == s'.history[|s'.history| - 2] == e.reading
  {
    assert (events + [e])[..|events|] == events;
    RunDebounced(codec, w, h, true, true, events);
  }
}
