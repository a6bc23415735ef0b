/** The panel calls the driver makes, recorded as events, and a model of what they leave on a HUB75 panel:
    with double buffering one buffer is shown while the other is drawn into, and a swap exchanges them; a
    single-buffered panel draws straight into the one buffer it shows. */
module PanelSink {
  import opened Colour

  /** A GFX font; DefaultFont is the one the driver substitutes for a null font pointer. */
  datatype Font = DefaultFont | CustomFont(id: nat)

  datatype Event =
    | SetBrightness(level: Byte)                              // panel->setBrightness
    | ClearScreen                                             // panel->clearScreen
    | SwapBuffers                                             // panel->swapDMABuffers
    | WaitFrame(period: int)                                  // vTaskDelayUntil(&lastWake, period)
    | CalcNewStates                                           // matrix->calcNewStates
    | DrawPixel(x: int, y: int, colour: Word)                 // panel->drawPixel
    | SetFont(font: Font)                                     // panel->setFont
    | PrintText(text: string, x: int, y: int, colour: Word)   // panel->printText
  {
    /** Events that put something into the buffer being drawn. */
    predicate IsDrawing()
    {
      DrawPixel? || PrintText?
    }

    /** Events that change which buffer is shown or wipe it. */
    predicate IsFlipOrClear()
    {
      SwapBuffers? || ClearScreen?
    }
  }

  /** The panel as the events leave it: its brightness, what is shown and what is being drawn. */
  datatype Screen = Screen(brightness: Byte, shown: seq<Event>, drawing: seq<Event>)

  function Apply(s: Screen, e: Event, doubleBuffered: bool): Screen
  {
    match e
    case SetBrightness(level) => s.(brightness := level)
    case ClearScreen => if doubleBuffered then s.(drawing := []) else s.(shown := [], drawing := [])
    case SwapBuffers => if doubleBuffered then s.(shown := s.drawing, drawing := s.shown) else s
    case DrawPixel(_, _, _) =>
      if doubleBuffered then s.(drawing := s.drawing + [e]) else s.(shown := s.shown + [e], drawing := s.drawing + [e])
    case PrintText(_, _, _, _) =>
      if doubleBuffered then s.(drawing := s.drawing + [e]) else s.(shown := s.shown + [e], drawing := s.drawing + [e])
    case _ => s
  }

  /** The panel after a sequence of calls. */
  function Replay(s: Screen, events: seq<Event>, doubleBuffered: bool): Screen
    decreases |events|
  {
    if events == [] then s else Replay(Apply(s, events[0], doubleBuffered), events[1..], doubleBuffered)
  }

  /** The drawing events of a sequence, in order. */
  function Drawn(events: seq<Event>): seq<Event>
  {
    if events == [] then [] else (if events[0].IsDrawing() then [events[0]] else []) + Drawn(events[1..])
  }

  lemma {:induction false} DrawnAppend(a: seq<Event>, b: seq<Event>)
    ensures Drawn(a + b) == Drawn(a) + Drawn(b)
  {
    if a == [] {
      assert a + b == b;
    } else {
      var head := if a[0].IsDrawing() then [a[0]] else [];
      assert (a + b)[0] == a[0];
      assert (a + b)[1..] == a[1..] + b;
      DrawnAppend(a[1..], b);
      assert Drawn(a + b) == head + (Drawn(a[1..]) + Drawn(b));
      assert head + (Drawn(a[1..]) + Drawn(b)) == head + Drawn(a[1..]) + Drawn(b);
    }
  }

  /** Replaying two sequences one after the other is replaying their concatenation. */
  lemma {:induction false} ReplayAppend(s: Screen, a: seq<Event>, b: seq<Event>, doubleBuffered: bool)
    ensures Replay(s, a + b, doubleBuffered) == Replay(Replay(s, a, doubleBuffered), b, doubleBuffered)
    decreases |a|
  {
    if a == [] {
      assert a + b == b;
    } else {
      assert (a + b)[0] == a[0];
      assert (a + b)[1..] == a[1..] + b;
      ReplayAppend(Apply(s, a[0], doubleBuffered), a[1..], b, doubleBuffered);
    }
  }

  /** No call in the sequence swaps or clears a buffer. */
  ghost predicate NoFlip(events: seq<Event>)
  {
    forall i :: 0 <= i < |events| ==> !events[i].IsFlipOrClear()
  }

  lemma NoFlipAppend(a: seq<Event>, b: seq<Event>)
    requires NoFlip(a) && NoFlip(b)
    ensures NoFlip(a + b)
  {
    forall i | 0 <= i < |a + b|
      ensures !(a + b)[i].IsFlipOrClear()
    {
      if i >= |a| {
        assert (a + b)[i] == b[i - |a|];
      }
    }
  }

  /** Calls that neither swap nor clear add exactly their drawing calls, in order, to the buffer being
      drawn; on a double-buffered panel the shown buffer is left alone, on a single-buffered one it is the
      same buffer. */
  lemma {:induction false} ReplayWithoutFlip(s: Screen, events: seq<Event>, doubleBuffered: bool)
    requires NoFlip(events)
    ensures Replay(s, events, doubleBuffered).drawing == s.drawing + Drawn(events)
    ensures Replay(s, events, doubleBuffered).shown == if doubleBuffered then s.shown else s.shown + Drawn(events)
    decreases |events|
  {
    if events != [] {
      var e, tail := events[0], events[1..];
      var next := Apply(s, e, doubleBuffered);
      var added := if e.IsDrawing() then [e] else [];
      NoFlipTail(events);
      ApplyWithoutFlip(s, e, doubleBuffered);
      ReplayWithoutFlip(next, tail, doubleBuffered);
      assert Replay(s, events, doubleBuffered) == Replay(next, tail, doubleBuffered);
      assert Drawn(events) == added + Drawn(tail);
      assert s.drawing + added + Drawn(tail) == s.drawing + (added + Drawn(tail));
      assert s.shown + added + Drawn(tail) == s.shown + (added + Drawn(tail));
    }
  }

  lemma NoFlipTail(events: seq<Event>)
    requires NoFlip(events) && events != []
    ensures !events[0].IsFlipOrClear() && NoFlip(events[1..])
  {
    forall i | 0 <= i < |events[1..]|
      ensures !events[1..][i].IsFlipOrClear()
    {
      assert events[1..][i] == events[i + 1];
    }
  }

  lemma ApplyWithoutFlip(s: Screen, e: Event, doubleBuffered: bool)
    requires !e.IsFlipOrClear()
    ensures var added := if e.IsDrawing() then [e] else [];
            Apply(s, e, doubleBuffered).drawing == s.drawing + added
            && Apply(s, e, doubleBuffered).shown == if doubleBuffered then s.shown else s.shown + added
  {
  }

  /** A sequence made only of drawing calls is its own drawing. */
  lemma {:induction false} DrawnOfDrawings(events: seq<Event>)
    requires forall i :: 0 <= i < |events| ==> events[i].IsDrawing()
    ensures Drawn(events) == events
  {
    if events != [] {
      DrawnOfDrawings(events[1..]);
    }
  }

  /** How every running frame starts: flip (double-buffered only), wait for the frame boundary, clear the
      buffer about to be drawn. */
  function FrameHead(doubleBuffered: bool, period: int): seq<Event>
  {
    (if doubleBuffered then [SwapBuffers] else []) + [WaitFrame(period), ClearScreen]
  }

  /** After the head of a frame the buffer being drawn is empty. Double-buffered, the panel shows what the
      previous frame drew; single-buffered, it shows the cleared buffer. */
  lemma FrameHeadClears(s: Screen, doubleBuffered: bool, period: int)
    ensures Replay(s, FrameHead(doubleBuffered, period), doubleBuffered).drawing == []
    ensures Replay(s, FrameHead(doubleBuffered, period), doubleBuffered).shown == if doubleBuffered then s.drawing else []
  {
    var head := FrameHead(doubleBuffered, period);
    if doubleBuffered {
      var s1 := Apply(s, SwapBuffers, true);
      var s2 := Apply(s1, WaitFrame(period), true);
      var s3 := Apply(s2, ClearScreen, true);
      assert Replay(s, head, true) == Replay(s1, head[1..], true);
      assert Replay(s1, head[1..], true) == Replay(s2, head[2..], true);
      assert Replay(s2, head[2..], true) == Replay(s3, head[3..], true);
      assert head[3..] == [];
    } else {
      var s1 := Apply(s, WaitFrame(period), false);
      var s2 := Apply(s1, ClearScreen, false);
      assert Replay(s, head, false) == Replay(s1, head[1..], false);
      assert Replay(s1, head[1..], false) == Replay(s2, head[2..], false);
      assert head[2..] == [];
    }
  }

  /** A whole running frame: the head, calls that only set state, then two layers of drawing calls. The
      buffer being drawn ends up holding the two layers' drawings in order; the panel shows the previous
      frame's drawing (double-buffered) or the same layers (single-buffered). */
  lemma FrameReplay(s: Screen, doubleBuffered: bool, period: int, setup: seq<Event>, lower: seq<Event>, upper: seq<Event>)
    requires NoFlip(setup) && Drawn(setup) == [] && NoFlip(lower) && NoFlip(upper)
    ensures Replay(s, FrameHead(doubleBuffered, period) + setup + lower + upper, doubleBuffered).drawing
            == Drawn(lower) + Drawn(upper)
    ensures Replay(s, FrameHead(doubleBuffered, period) + setup + lower + upper, doubleBuffered).shown
            == if doubleBuffered then s.drawing else Drawn(lower) + Drawn(upper)
  {
    var head := FrameHead(doubleBuffered, period);
    var body := setup + lower + upper;
    LayeredBody(setup, lower, upper);
    assert head + setup + lower + upper == head + body;
    ReplayAppend(s, head, body, doubleBuffered);
    FrameHeadClears(s, doubleBuffered, period);
    var s1 := Replay(s, head, doubleBuffered);
    ReplayWithoutFlip(s1, body, doubleBuffered);
    assert s1.drawing + Drawn(body) == Drawn(lower) + Drawn(upper);
  }

  /** The calls after a frame's head neither swap nor clear, and draw exactly the two layers. */
  lemma LayeredBody(setup: seq<Event>, lower: seq<Event>, upper: seq<Event>)
    requires NoFlip(setup) && Drawn(setup) == [] && NoFlip(lower) && NoFlip(upper)
    ensures NoFlip(setup + lower + upper)
    ensures Drawn(setup + lower + upper) == Drawn(lower) + Drawn(upper)
  {
    NoFlipAppend(setup, lower);
    NoFlipAppend(setup + lower, upper);
    DrawnAppend(setup, lower);
    DrawnAppend(setup + lower, upper);
    assert Drawn(setup + lower) == Drawn(lower);
  }

  /** The calls of the first paused iteration after running: brightness 0, then both buffers cleared
      (double-buffered: clear, swap, wait one frame, clear) or the single buffer cleared. */
  function PauseEvents(doubleBuffered: bool, period: int): seq<Event>
  {
    [SetBrightness(0)] + (if doubleBuffered then [ClearScreen, SwapBuffers, WaitFrame(period), ClearScreen] else [ClearScreen])
  }

  /** Pausing leaves the panel dark with nothing in either buffer, so a resume starts from blank buffers. */
  lemma PauseBlanksPanel(s: Screen, doubleBuffered: bool, period: int)
    ensures Replay(s, PauseEvents(doubleBuffered, period), doubleBuffered) == Screen(0, [], [])
  {
    var events := PauseEvents(doubleBuffered, period);
    var s1 := Apply(s, SetBrightness(0), doubleBuffered);
    var s2 := Apply(s1, ClearScreen, doubleBuffered);
    assert Replay(s, events, doubleBuffered) == Replay(s1, events[1..], doubleBuffered);
    assert Replay(s1, events[1..], doubleBuffered) == Replay(s2, events[2..], doubleBuffered);
    if doubleBuffered {
      var s3 := Apply(s2, SwapBuffers, true);
      var s4 := Apply(s3, WaitFrame(period), true);
      var s5 := Apply(s4, ClearScreen, true);
      assert Replay(s2, events[2..], true) == Replay(s3, events[3..], true);
      assert Replay(s3, events[3..], true) == Replay(s4, events[4..], true);
      assert Replay(s4, events[4..], true) == Replay(s5, events[5..], true);
      assert events[5..] == [];
    } else {
      assert events[2..] == [];
    }
  }

  /** The HUB75 panel as the driver sees it: whether it double-buffers, the refresh rate it measured at start,
      the brightness it holds (Panel::getBrightness) and the calls made on it so far, in order. The update
      task's frame waits are recorded in the same sequence so that their order relative to the panel calls
      is visible. */
  class Panel {
    const doubleBuffered: bool
    const refreshRate: int
    var brightness: Byte
    var calls: seq<Event>

    /** Panel(brightness, doubleBuffered), with the refresh rate the DMA library calculated. */
    constructor(brightness: Byte, doubleBuffered: bool, refreshRate: int)
      ensures this.brightness == brightness && this.doubleBuffered == doubleBuffered
      ensures this.refreshRate == refreshRate && calls == []
    {
      this.brightness := brightness;
      this.doubleBuffered := doubleBuffered;
      this.refreshRate := refreshRate;
      calls := [];
    }

    /** One call on the panel; Panel::setBrightness also stores the level that getBrightness returns. */
    method Record(e: Event)
      modifies this
      ensures calls == old(calls) + [e]
      ensures brightness == if e.SetBrightness? then e.level else old(brightness)
    {
      calls := calls + [e];
      if e.SetBrightness? {
        brightness := e.level;
      }
    }
  }
}
