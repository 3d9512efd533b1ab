/**
  The drag controller with alignment guide lines (src/utils/dragUtils.ts).

  A handler is an explicit state record stepped by pointer events; a run
  folds the steps over an event sequence and collects every `onDrag` call.
  The document is represented by two things the source manipulates: the
  number of mouse-move/mouse-up listener pairs currently registered, and the
  guide-line elements currently attached to the container. Reads of the
  environment at mouse-down time (the value `getCurrentOffset()` returns and
  the container's size, or its absence) travel in the event.
 */
module DragGuides {
  import opened Opt
  import Seqs

  datatype Point = Point(x: int, y: int) {
    function Plus(o: Point): Point {
      Point(x + o.x, y + o.y)
    }

    function Minus(o: Point): Point {
      Point(x - o.x, y - o.y)
    }
  }

  /** Size of the guide container's bounding box. */
  datatype Extent = Extent(width: nat, height: nat)

  datatype Axis = Horizontal | Vertical

  /** A dashed guide line and its offset (px) inside the container. */
  datatype GuideLine = GuideLine(axis: Axis, at: real)

  /** The handler's two guide-line slots. */
  datatype GuideSlots = GuideSlots(horizontal: Option<GuideLine>, vertical: Option<GuideLine>)

  const NoGuides := GuideSlots(None, None)

  /** The part of GuideLineOptions that changes behaviour; colour, width and
      container selector only style or locate the lines. */
  datatype GuideLineOptions = GuideLineOptions(showGuideLines: Option<bool>)

  datatype Event =
    | MouseDown(pointer: Point, current: Point, container: Option<Extent>)
    | MouseMove(pointer: Point)
    | MouseUp

  datatype Handler = Handler(
    showGuideLines: bool,
    isDragging: bool,
    startPos: Point,
    initialOffset: Point,
    guides: GuideSlots,
    attached: seq<GuideLine>,
    listeners: nat)

  /** The lines the slots refer to, horizontal first. */
  function SlotLines(g: GuideSlots): (r: seq<GuideLine>)
    ensures |r| <= 2
  {
    (if g.horizontal.Some? then [g.horizontal.value] else [])
    + (if g.vertical.Some? then [g.vertical.value] else [])
  }

  /** The handler's invariant: listeners are registered exactly while dragging,
      guide lines exist only while dragging and only if enabled, and the
      document holds exactly the lines the slots refer to. */
  ghost predicate Valid(h: Handler) {
    && (h.isDragging <==> h.listeners > 0)
    && (!h.isDragging ==> h.guides == NoGuides)
    && (!h.showGuideLines ==> h.guides == NoGuides)
    && h.attached == SlotLines(h.guides)
  }

  /** `createDragHandler(onDrag, getCurrentOffset, options)`; guide lines are on
      unless the option says otherwise. */
  function CreateDragHandler(options: GuideLineOptions): (h: Handler)
    ensures Valid(h) && !h.isDragging && h.attached == []
    ensures h.showGuideLines == (options.showGuideLines != Some(false))
  {
    Handler(options.showGuideLines.GetOr(true), false, Point(0, 0), Point(0, 0), NoGuides, [], 0)
  }

  /** `createSimpleDragHandler`: the same handler with guide lines switched off. */
  function CreateSimpleDragHandler(): (h: Handler)
    ensures Valid(h) && !h.showGuideLines
  {
    CreateDragHandler(GuideLineOptions(Some(false)))
  }

  /** Detaches the first element equal to `x` (`element.remove()`). */
  function Detach(s: seq<GuideLine>, x: GuideLine): (r: seq<GuideLine>)
    ensures x in s ==> |r| == |s| - 1
    ensures x !in s ==> r == s
  {
    if s == [] then []
    else if s[0] == x then s[1..]
    else [s[0]] + Detach(s[1..], x)
  }

  /** `hideGuides`: detaches and forgets whichever lines the slots hold. */
  function HideGuides(h: Handler): (r: Handler)
    ensures r.guides == NoGuides
    ensures r == h.(guides := NoGuides, attached := r.attached)
    ensures h.attached == SlotLines(h.guides) ==> r.attached == []
  {
    var h1 := if h.guides.horizontal.Some?
              then h.(attached := Detach(h.attached, h.guides.horizontal.value), guides := h.guides.(horizontal := None))
              else h;
    var h2 := if h1.guides.vertical.Some?
              then h1.(attached := Detach(h1.attached, h1.guides.vertical.value), guides := h1.guides.(vertical := None))
              else h1;
    h2
  }

  /** Hiding twice is hiding once. */
  lemma HideGuidesIdempotent(h: Handler)
    ensures HideGuides(HideGuides(h)) == HideGuides(h)
  {
  }

  /** `showGuides`: nothing when guide lines are off or there is no container;
      otherwise the old lines go first, then one horizontal line through the
      container's vertical centre and one vertical line through its horizontal
      centre are attached. */
  function ShowGuides(h: Handler, container: Option<Extent>): (r: Handler)
    ensures !h.showGuideLines || container.None? ==> r == h
    ensures h.showGuideLines && container.Some? ==>
      && r.guides.horizontal == Some(GuideLine(Horizontal, container.value.height as real / 2.0))
      && r.guides.vertical == Some(GuideLine(Vertical, container.value.width as real / 2.0))
      && r == h.(guides := r.guides, attached := r.attached)
    ensures h.attached == SlotLines(h.guides) ==> r.attached == SlotLines(r.guides)
  {
    if !h.showGuideLines then h
    else if container.None? then h
    else
      var cleared := HideGuides(h);
      var horizontal := GuideLine(Horizontal, container.value.height as real / 2.0);
      var vertical := GuideLine(Vertical, container.value.width as real / 2.0);
      cleared.(guides := GuideSlots(Some(horizontal), Some(vertical)),
               attached := cleared.attached + [horizontal, vertical])
  }

  /** `onMouseDown`: start a gesture at the pointer from the current offset,
      show the guides, and register one more listener pair. */
  function OnMouseDown(h: Handler, pointer: Point, current: Point, container: Option<Extent>): (r: Handler)
    ensures r.isDragging && r.startPos == pointer && r.initialOffset == current
    ensures r.listeners == h.listeners + 1
    ensures r.showGuideLines == h.showGuideLines
    ensures h.showGuideLines && container.Some? ==>
      r.guides == GuideSlots(Some(GuideLine(Horizontal, container.value.height as real / 2.0)),
                             Some(GuideLine(Vertical, container.value.width as real / 2.0)))
    ensures !h.showGuideLines || container.None? ==> r.guides == h.guides && r.attached == h.attached
    ensures Valid(h) ==> Valid(r)
  {
    var d := h.(isDragging := true, startPos := pointer, initialOffset := current);
    var g := if h.showGuideLines then ShowGuides(d, container) else d;
    g.(listeners := g.listeners + 1)
  }

  /** The offset a move to `pointer` reports. */
  function DragOffset(h: Handler, pointer: Point): Point {
    h.initialOffset.Plus(pointer.Minus(h.startPos))
  }

  /** `onMouseMove`, once per registered listener: while dragging, each call
      reports the initial offset moved by the pointer's travel since mouse-down;
      otherwise nothing. */
  function OnMouseMove(h: Handler, pointer: Point): (calls: seq<Point>)
    ensures h.isDragging ==> |calls| == h.listeners
    ensures !h.isDragging ==> calls == []
    ensures forall i :: 0 <= i < |calls| ==>
      calls[i] == Point(h.initialOffset.x + (pointer.x - h.startPos.x), h.initialOffset.y + (pointer.y - h.startPos.y))
  {
    if h.isDragging then Seqs.Repeat(DragOffset(h, pointer), h.listeners) else []
  }

  /** One registered `onMouseUp`: stop dragging, hide the guides, remove its own pair. */
  function UpListener(h: Handler): (r: Handler)
    requires h.listeners > 0
    ensures r.listeners == h.listeners - 1
    ensures !r.isDragging && r.guides == NoGuides
    ensures h.attached == SlotLines(h.guides) ==> r.attached == []
    ensures r.startPos == h.startPos && r.initialOffset == h.initialOffset && r.showGuideLines == h.showGuideLines
  {
    HideGuides(h.(isDragging := false)).(listeners := h.listeners - 1)
  }

  /** The first `k` registered mouse-up listeners run in turn. */
  function FireUpListeners(h: Handler, k: nat): (r: Handler)
    requires k <= h.listeners
    ensures r.listeners == h.listeners - k
    ensures k > 0 ==> !r.isDragging && r.guides == NoGuides
    ensures k > 0 && h.attached == SlotLines(h.guides) ==> r.attached == []
    ensures r.startPos == h.startPos && r.initialOffset == h.initialOffset && r.showGuideLines == h.showGuideLines
    decreases k
  {
    if k == 0 then h else FireUpListeners(UpListener(h), k - 1)
  }

  /** Mouse-up runs every registered up listener: the gesture ends, all
      listeners are gone and no guide line is left attached. */
  function OnMouseUp(h: Handler): (r: Handler)
    ensures r.listeners == 0
    ensures h.listeners > 0 ==> !r.isDragging && r.guides == NoGuides
    ensures Valid(h) ==> Valid(r) && r.attached == [] && r.guides == NoGuides
  {
    FireUpListeners(h, h.listeners)
  }

  /** One event: the next handler state and the `onDrag` calls it makes. */
  function Step(h: Handler, e: Event): (Handler, seq<Point>) {
    match e
    case MouseDown(p, current, container) => (OnMouseDown(h, p, current, container), [])
    case MouseMove(p) => (h, OnMouseMove(h, p))
    case MouseUp => (OnMouseUp(h), [])
  }

  /** The handler after a sequence of events, with every `onDrag` call in order. */
  function Run(h: Handler, events: seq<Event>): (Handler, seq<Point>)
    decreases |events|
  {
    if events == [] then (h, [])
    else
      var (h1, calls1) := Step(h, events[0]);
      var (h2, calls2) := Run(h1, events[1..]);
      (h2, calls1 + calls2)
  }

  lemma StepKeepsValid(h: Handler, e: Event)
    requires Valid(h)
    ensures Valid(Step(h, e).0)
  {
  }

  /** Every reachable handler is valid: at most one line per axis, none left
      behind outside a gesture, listeners exactly while dragging. */
  lemma {:induction false} RunKeepsValid(h: Handler, events: seq<Event>)
    requires Valid(h)
    ensures Valid(Run(h, events).0)
    decreases |events|
  {
    if events != [] {
      StepKeepsValid(h, events[0]);
      RunKeepsValid(Step(h, events[0]).0, events[1..]);
    }
  }

  /** A move back to the mouse-down point reports exactly the offset read at mouse-down. */
  lemma ReturnToStart(h: Handler, p: Point, current: Point, container: Option<Extent>)
    requires Valid(h)
    ensures var d := OnMouseDown(h, p, current, container);
            |OnMouseMove(d, p)| >= 1 && forall i :: 0 <= i < |OnMouseMove(d, p)| ==> OnMouseMove(d, p)[i] == current
  {
  }

  predicate NoMouseDown(events: seq<Event>) {
    forall i :: 0 <= i < |events| ==> !events[i].MouseDown?
  }

  /** Outside a gesture, no event but a mouse-down leads to an `onDrag` call. */
  lemma {:induction false} IdleIsSilent(h: Handler, events: seq<Event>)
    requires Valid(h) && !h.isDragging
    requires NoMouseDown(events)
    ensures Run(h, events).1 == []
    ensures Run(h, events).0 == h
    decreases |events|
  {
    if events != [] {
      IdleIsSilent(Step(h, events[0]).0, events[1..]);
    }
  }

  /** After mouse-up, moves never call `onDrag` until the next mouse-down. */
  lemma MovesAfterUpAreSilent(h: Handler, events: seq<Event>)
    requires Valid(h)
    requires NoMouseDown(events)
    ensures Run(h, [MouseUp] + events).1 == []
  {
    var up := OnMouseUp(h);
    assert ([MouseUp] + events)[1..] == events;
    IdleIsSilent(up, events);
  }

  function Moves(ps: seq<Point>): (events: seq<Event>)
    ensures |events| == |ps|
    ensures NoMouseDown(events)
  {
    if ps == [] then [] else [MouseMove(ps[0])] + Moves(ps[1..])
  }

  /** What a single gesture from `down` with the given offset reports at each pointer position. */
  function Offsets(current: Point, down: Point, ps: seq<Point>): (r: seq<Point>)
    ensures |r| == |ps|
    ensures forall i :: 0 <= i < |ps| ==> r[i] == current.Plus(ps[i].Minus(down))
  {
    if ps == [] then [] else [current.Plus(ps[0].Minus(down))] + Offsets(current, down, ps[1..])
  }

  /** While one gesture is in progress, each move makes exactly one `onDrag`
      call with the offset read at mouse-down moved by the pointer's travel. */
  lemma {:induction false} DraggingMoves(h: Handler, ps: seq<Point>)
    requires Valid(h) && h.isDragging && h.listeners == 1
    ensures Run(h, Moves(ps)) == (h, Offsets(h.initialOffset, h.startPos, ps))
    decreases |ps|
  {
    if ps != [] {
      var evs := Moves(ps);
      assert evs[0] == MouseMove(ps[0]);
      assert evs[1..] == Moves(ps[1..]);
      assert OnMouseMove(h, ps[0]) == [DragOffset(h, ps[0])];
      assert Step(h, evs[0]) == (h, [DragOffset(h, ps[0])]);
      DraggingMoves(h, ps[1..]);
    }
  }

  lemma RunUnfold(h: Handler, events: seq<Event>)
    requires events != []
    ensures Run(h, events).0 == Run(Step(h, events[0]).0, events[1..]).0
    ensures Run(h, events).1 == Step(h, events[0]).1 + Run(Step(h, events[0]).0, events[1..]).1
  {
  }

  lemma {:induction false} RunAppend(h: Handler, a: seq<Event>, b: seq<Event>)
    ensures Run(h, a + b).0 == Run(Run(h, a).0, b).0
    ensures Run(h, a + b).1 == Run(h, a).1 + Run(Run(h, a).0, b).1
    decreases |a|
  {
    if a == [] {
      assert a + b == b;
    } else {
      var ab := a + b;
      assert ab[0] == a[0];
      assert ab[1..] == a[1..] + b;
      var h1 := Step(h, a[0]).0;
      var c1 := Step(h, a[0]).1;
      RunUnfold(h, a);
      RunUnfold(h, ab);
      RunAppend(h1, a[1..], b);
      assert c1 + (Run(h1, a[1..]).1 + Run(Run(h1, a[1..]).0, b).1)
          == (c1 + Run(h1, a[1..]).1) + Run(Run(h1, a[1..]).0, b).1;
    }
  }

  /** A whole gesture — down, moves, up — from an idle handler reports
      `current + (p - down)` for every move `p`, in order, and ends idle with
      no listener and no guide line left. */
  lemma Gesture(h: Handler, down: Point, current: Point, container: Option<Extent>, ps: seq<Point>)
    requires Valid(h) && !h.isDragging
    ensures var (final, calls) := Run(h, [MouseDown(down, current, container)] + Moves(ps) + [MouseUp]);
            && calls == Offsets(current, down, ps)
            && !final.isDragging && final.listeners == 0
            && final.guides == NoGuides && final.attached == []
  {
    var d := OnMouseDown(h, down, current, container);
    var downEv := [MouseDown(down, current, container)];
    RunAppend(h, downEv + Moves(ps), [MouseUp]);
    RunAppend(h, downEv, Moves(ps));
    assert Run(h, downEv) == (d, []);
    DraggingMoves(d, ps);
    assert Run(d, [MouseUp]) == (OnMouseUp(d), []);
  }

  /** The simple handler never attaches a guide line, whatever happens. */
  lemma SimpleHandlerNeverShowsGuides(events: seq<Event>)
    ensures Run(CreateSimpleDragHandler(), events).0.attached == []
    ensures Run(CreateSimpleDragHandler(), events).0.guides == NoGuides
  {
    RunKeepsValid(CreateSimpleDragHandler(), events);
    SimpleStaysSimple(CreateSimpleDragHandler(), events);
  }

  lemma {:induction false} SimpleStaysSimple(h: Handler, events: seq<Event>)
    ensures Run(h, events).0.showGuideLines == h.showGuideLines
    decreases |events|
  {
    if events != [] {
      SimpleStaysSimple(Step(h, events[0]).0, events[1..]);
    }
  }

  // ---------------------------------------------------------------------
  // useDragState
  // ---------------------------------------------------------------------

  /** `useDragState()` with one handler made by `createReactiveDragHandler`:
      the handler reads its offset from `dragPosition` and writes every
      reported offset back into it. `isDragging` is the state's exposed flag. */
  datatype ReactiveDrag = ReactiveDrag(handler: Handler, dragPosition: Point, isDragging: bool)

  function UseDragState(options: GuideLineOptions): (r: ReactiveDrag)
    ensures r.dragPosition == Point(0, 0) && !r.isDragging && Valid(r.handler)
  {
    ReactiveDrag(CreateDragHandler(options), Point(0, 0), false)
  }

  /** Each wrapped `onDrag` call stores its coordinates in `dragPosition`. */
  function Absorb(position: Point, calls: seq<Point>): (r: Point)
    decreases |calls|
  {
    if calls == [] then position else Absorb(calls[0], calls[1..])
  }

  function Last(s: seq<Point>): Point
    requires s != []
  {
    s[|s| - 1]
  }

  lemma {:induction false} AbsorbIsLast(position: Point, calls: seq<Point>)
    ensures Absorb(position, calls) == if calls == [] then position else Last(calls)
    decreases |calls|
  {
    if calls != [] {
      AbsorbIsLast(calls[0], calls[1..]);
    }
  }

  /** One event seen by the reactive handler; a mouse-down takes its offset from
      `dragPosition`, whatever the event carries. */
  function ReactiveStep(r: ReactiveDrag, e: Event): (out: (ReactiveDrag, seq<Point>))
    ensures e.MouseDown? ==>
      && out.0.handler == OnMouseDown(r.handler, e.pointer, r.dragPosition, e.container)
      && out.1 == [] && out.0.dragPosition == r.dragPosition
    ensures e.MouseMove? ==>
      && out.0.handler == r.handler
      && out.1 == OnMouseMove(r.handler, e.pointer)
      && out.0.dragPosition == (if out.1 == [] then r.dragPosition else Last(out.1))
    ensures e.MouseUp? ==> out.0.handler == OnMouseUp(r.handler) && out.1 == [] && out.0.dragPosition == r.dragPosition
    ensures out.0.isDragging == r.isDragging
  {
    var e' := if e.MouseDown? then MouseDown(e.pointer, r.dragPosition, e.container) else e;
    var (h, calls) := Step(r.handler, e');
    AbsorbIsLast(r.dragPosition, calls);
    (r.(handler := h, dragPosition := Absorb(r.dragPosition, calls)), calls)
  }

  function ReactiveRun(r: ReactiveDrag, events: seq<Event>): (ReactiveDrag, seq<Point>)
    decreases |events|
  {
    if events == [] then (r, [])
    else
      var (r1, calls1) := ReactiveStep(r, events[0]);
      var (r2, calls2) := ReactiveRun(r1, events[1..]);
      (r2, calls1 + calls2)
  }

  /** `dragPosition` is always the last offset reported to `onDrag` (or where it
      started, if none was), and the exposed `isDragging` flag is never written. */
  lemma {:induction false} ReactiveTracksLastCall(r: ReactiveDrag, events: seq<Event>)
    ensures var (r', calls) := ReactiveRun(r, events);
            && r'.dragPosition == (if calls == [] then r.dragPosition else Last(calls))
            && r'.isDragging == r.isDragging
    decreases |events|
  {
    if events != [] {
      var (r1, calls1) := ReactiveStep(r, events[0]);
      AbsorbIsLast(r.dragPosition, calls1);
      ReactiveTracksLastCall(r1, events[1..]);
      var (r2, calls2) := ReactiveRun(r1, events[1..]);
      if calls2 != [] {
        assert Last(calls1 + calls2) == Last(calls2);
      }
    }
  }

  /** The next gesture starts from `dragPosition`: a mouse-down snapshots it as
      the initial offset, so a move back to the mouse-down point reports it again. */
  lemma ReactiveGestureStartsAtPosition(r: ReactiveDrag, p: Point, anyOffset: Point, container: Option<Extent>)
    requires Valid(r.handler)
    ensures var (r', calls) := ReactiveStep(r, MouseDown(p, anyOffset, container));
            && calls == []
            && r'.handler.initialOffset == r.dragPosition
            && r'.dragPosition == r.dragPosition
            && forall q :: q in OnMouseMove(r'.handler, p) ==> q == r.dragPosition
  {
  }
}
