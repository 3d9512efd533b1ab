/**
  The older drag handler (src/utils/index.ts).

  The older handler stores `pointer - offset` at mouse-down and reports
  `pointer - startPos` on each move; it has no dragging flag and relies on
  removing its listeners at mouse-up. It is stepped by the same events as the
  guide-line handler, and the two are proved to make the same `onDrag` calls.
 */
module LegacyDrag {
  import opened Opt
  import opened DragGuides
  import Seqs

  /** The closure state of the older handler: its start position and how many
      mouse-move/mouse-up listener pairs are registered on the document. */
  datatype LegacyHandler = LegacyHandler(startPos: Point, listeners: nat)

  function CreateLegacyDragHandler(): (h: LegacyHandler)
    ensures h.listeners == 0
  {
    LegacyHandler(Point(0, 0), 0)
  }

  /** `handleMouseDown`: remember where the pointer is relative to the current
      offset and register one more listener pair. */
  function HandleMouseDown(h: LegacyHandler, pointer: Point, current: Point): (r: LegacyHandler)
    ensures r.startPos.Plus(current) == pointer
    ensures r.listeners == h.listeners + 1
  {
    LegacyHandler(pointer.Minus(current), h.listeners + 1)
  }

  /** `handleMouseMove`, once per registered listener. */
  function HandleMouseMove(h: LegacyHandler, pointer: Point): (calls: seq<Point>)
    ensures |calls| == h.listeners
    ensures forall i :: 0 <= i < |calls| ==> calls[i].Plus(h.startPos) == pointer
  {
    Seqs.Repeat(pointer.Minus(h.startPos), h.listeners)
  }

  /** `handleMouseUp`: every registered up listener removes its own pair, so none remain. */
  function HandleMouseUp(h: LegacyHandler): (r: LegacyHandler)
    ensures r.listeners == 0
  {
    h.(listeners := 0)
  }

  function LegacyStep(h: LegacyHandler, e: Event): (LegacyHandler, seq<Point>) {
    match e
    case MouseDown(p, current, _) => (HandleMouseDown(h, p, current), [])
    case MouseMove(p) => (h, HandleMouseMove(h, p))
    case MouseUp => (HandleMouseUp(h), [])
  }

  function LegacyRun(h: LegacyHandler, events: seq<Event>): (LegacyHandler, seq<Point>)
    decreases |events|
  {
    if events == [] then (h, [])
    else
      var (h1, calls1) := LegacyStep(h, events[0]);
      var (h2, calls2) := LegacyRun(h1, events[1..]);
      (h2, calls1 + calls2)
  }

  /** A move reports the offset read at mouse-down plus the pointer's travel:
      `p - (down - current) == current + (p - down)`. */
  lemma LegacyMoveOffset(h: LegacyHandler, down: Point, current: Point, p: Point)
    ensures var d := HandleMouseDown(h, down, current);
            forall q :: q in HandleMouseMove(d, p) ==> q == current.Plus(p.Minus(down))
  {
  }

  /** A move back to the mouse-down point reports exactly the offset read at mouse-down. */
  lemma LegacyReturnToStart(h: LegacyHandler, down: Point, current: Point)
    ensures var d := HandleMouseDown(h, down, current);
            |HandleMouseMove(d, down)| >= 1 && forall q :: q in HandleMouseMove(d, down) ==> q == current
  {
  }

  /** How the two handlers' states correspond: the same listeners, and the
      older start position is the newer one shifted back by the initial offset. */
  ghost predicate Corresponds(l: LegacyHandler, g: Handler) {
    && Valid(g)
    && l.listeners == g.listeners
    && (g.isDragging ==> l.startPos == g.startPos.Minus(g.initialOffset))
  }

  lemma StepCorresponds(l: LegacyHandler, g: Handler, e: Event)
    requires Corresponds(l, g)
    ensures Corresponds(LegacyStep(l, e).0, Step(g, e).0)
    ensures LegacyStep(l, e).1 == Step(g, e).1
  {
    StepKeepsValid(g, e);
    if e.MouseMove? && g.isDragging {
      assert e.pointer.Minus(l.startPos) == DragOffset(g, e.pointer);
    }
  }

  /** From corresponding states, both handlers make the same `onDrag` calls on
      every event sequence. */
  lemma {:induction false} RunCorresponds(l: LegacyHandler, g: Handler, events: seq<Event>)
    requires Corresponds(l, g)
    ensures LegacyRun(l, events).1 == Run(g, events).1
    decreases |events|
  {
    if events != [] {
      StepCorresponds(l, g, events[0]);
      RunCorresponds(LegacyStep(l, events[0]).0, Step(g, events[0]).0, events[1..]);
    }
  }

  /** The older and the newer handler are interchangeable as far as `onDrag`
      can tell, whatever the guide-line options. */
  lemma LegacyEqualsGuided(options: GuideLineOptions, events: seq<Event>)
    ensures LegacyRun(CreateLegacyDragHandler(), events).1 == Run(CreateDragHandler(options), events).1
  {
    RunCorresponds(CreateLegacyDragHandler(), CreateDragHandler(options), events);
  }

  /** Once mouse-up has removed the listeners, nothing but a mouse-down can
      lead to another `onDrag` call. */
  lemma {:induction false} SilentAfterUp(h: LegacyHandler, events: seq<Event>)
    requires NoMouseDown(events)
    ensures LegacyRun(HandleMouseUp(h), events).1 == []
    decreases |events|
  {
    if events != [] {
      var (h1, calls1) := LegacyStep(HandleMouseUp(h), events[0]);
      assert h1 == HandleMouseUp(h) && calls1 == [];
      SilentAfterUp(h, events[1..]);
    }
  }

  /** Gestures compose: when the second mouse-down reads back the offset the
      first gesture last reported, the second gesture continues from it,
      whatever the moves of either gesture. */
  lemma GesturesCompose(o: Point, p1: Point, ps1: seq<Point>, c1: Option<Extent>,
                        p2: Point, ps2: seq<Point>, c2: Option<Extent>)
    requires ps1 != []
    ensures var first := Last(Offsets(o, p1, ps1));
            var g1 := [MouseDown(p1, o, c1)] + Moves(ps1) + [MouseUp];
            var g2 := [MouseDown(p2, first, c2)] + Moves(ps2) + [MouseUp];
            LegacyRun(CreateLegacyDragHandler(), g1 + g2).1
            == Offsets(o, p1, ps1) + Offsets(first, p2, ps2)
  {
    var first := Last(Offsets(o, p1, ps1));
    var g1 := [MouseDown(p1, o, c1)] + Moves(ps1) + [MouseUp];
    var g2 := [MouseDown(p2, first, c2)] + Moves(ps2) + [MouseUp];
    var h0 := CreateDragHandler(GuideLineOptions(None));
    LegacyEqualsGuided(GuideLineOptions(None), g1 + g2);
    RunAppend(h0, g1, g2);
    Gesture(h0, p1, o, c1, ps1);
    RunKeepsValid(h0, g1);
    Gesture(Run(h0, g1).0, p2, first, c2, ps2);
  }
}
