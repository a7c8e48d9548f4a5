/** The older two-mode controller, `PaintController`: the user toggles between
    rubber-band rectangles and freehand line segments. The connection is either
    present or absent for the whole session; the view's calls and what is sent
    are returned as a trace. */
module PaintController {
  import opened Common

  /** The shape type enumeration is not part of this model. The controller
      names only RECT and LINE; `Unlisted` stands for any other member. */
  datatype ShapeType = Rect | Line | Unlisted(name: string)

  datatype Effect =
    | Send(shape: ShapeType, coords: seq<int>)   // connection.add_to_send_queue
    | Erase(id: Option<ItemId>)                  // view.clear_drawing_by_id
    | DrawRect(coords: seq<int>)                 // view.draw_rect
    | DrawLine(coords: seq<int>)                 // view.draw_line

  datatype Event = Press(px: int, py: int) | Release(rx: int, ry: int) | Motion(mx: int, my: int)
                 | Unexpected

  datatype State = State(connected: bool, startPos: Option<Point>, lastDrawingId: Option<ItemId>,
                         mode: ShapeType)

  /** The state after a call, its effects, and whether it raised part-way. */
  datatype Outcome = Outcome(state: State, effects: seq<Effect>, raised: bool)

  function Init(connected: bool): (s: State)
    ensures s.connected == connected && s.mode == Rect
    ensures s.startPos == None && s.lastDrawingId == None
  {
    State(connected, None, None, Rect)
  }

  predicate KnownMode(s: State) {
    s.mode == Rect || s.mode == Line
  }

  function Sends(effects: seq<Effect>): (n: nat)
    ensures n <= |effects|
  {
    if |effects| == 0 then 0 else (if effects[0].Send? then 1 else 0) + Sends(effects[1..])
  }

  lemma {:induction false} SendsAppend(a: seq<Effect>, b: seq<Effect>)
    ensures Sends(a + b) == Sends(a) + Sends(b)
  {
    if |a| == 0 {
      assert a + b == b;
    } else {
      assert (a + b)[1..] == a[1..] + b;
      SendsAppend(a[1..], b);
    }
  }

  /** `toggle`: RECT and LINE swap; any other mode raises. */
  function Toggle(s: State): (r: Outcome)
    ensures r.effects == []
    ensures r.raised <==> !KnownMode(s)
    ensures r.raised ==> r.state == s
    ensures !r.raised ==> KnownMode(r.state) && r.state.mode != s.mode && r.state.(mode := s.mode) == s
  {
    match s.mode
    case Rect => Outcome(s.(mode := Line), [], false)
    case Line => Outcome(s.(mode := Rect), [], false)
    case Unlisted(_) => Outcome(s, [], true)
  }

  lemma ToggleTwice(s: State)
    requires KnownMode(s)
    ensures Toggle(Toggle(s).state) == Outcome(s, [], false)
  {
  }

  /** `_handle_event_rect`: press records the corner; motion replaces the
      preview rectangle; release sends the finished rectangle when connected,
      replaces the preview by it and resets the gesture. */
  function HandleRect(s: State, e: Event, drawn: Option<ItemId>): (r: Outcome)
    ensures r.state.mode == s.mode && r.state.connected == s.connected
    ensures e.Press? ==> r == Outcome(s.(startPos := Some(Point(e.px, e.py))), [], false)
    ensures e.Motion? ==> Sends(r.effects) == 0 && |r.effects| >= 1 && r.effects[0] == Erase(s.lastDrawingId)
    ensures e.Motion? && s.startPos.Some? ==>
      && r.effects == [Erase(s.lastDrawingId), DrawRect(Span(s.startPos.value, Point(e.mx, e.my)))]
      && r.state == s.(lastDrawingId := drawn) && !r.raised
    ensures e.Release? && s.startPos.Some? ==>
      var c := Span(s.startPos.value, Point(e.rx, e.ry));
      && r.effects == (if s.connected then [Send(Rect, c)] else []) + [Erase(s.lastDrawingId), DrawRect(c)]
      && r.state == s.(startPos := None, lastDrawingId := None) && !r.raised
    ensures e.Release? ==> Sends(r.effects) == (if s.connected && s.startPos.Some? then 1 else 0)
    ensures r.raised <==> e.Unexpected? || (!e.Press? && s.startPos.None?)
    ensures r.raised ==> r.state == s
  {
    match e
    case Press(x, y) => Outcome(s.(startPos := Some(Point(x, y))), [], false)
    case Release(x, y) =>
      if s.startPos.None? then
        // start_pos + event_coord raises: before sending, or after the erase
        Outcome(s, if s.connected then [] else [Erase(s.lastDrawingId)], true)
      else
        var c := Span(s.startPos.value, Point(x, y));
        var send := if s.connected then [Send(Rect, c)] else [];
        SendsAppend(send, [Erase(s.lastDrawingId), DrawRect(c)]);
        Outcome(s.(startPos := None, lastDrawingId := None),
                send + [Erase(s.lastDrawingId), DrawRect(c)], false)
    case Motion(x, y) =>
      if s.startPos.None? then Outcome(s, [Erase(s.lastDrawingId)], true)
      else
        Outcome(s.(lastDrawingId := drawn),
                [Erase(s.lastDrawingId), DrawRect(Span(s.startPos.value, Point(x, y)))], false)
    case Unexpected => Outcome(s, [], true)
  }

  /** `_handle_event_line`: press records the point; motion sends (when
      connected) and draws the segment to the cursor and moves the point
      along; release forgets the point and sends nothing. */
  function HandleLine(s: State, e: Event): (r: Outcome)
    ensures r.state.mode == s.mode && r.state.connected == s.connected
    ensures r.state.lastDrawingId == s.lastDrawingId
    ensures e.Press? ==> r == Outcome(s.(startPos := Some(Point(e.px, e.py))), [], false)
    ensures e.Release? ==> r == Outcome(s.(startPos := None), [], false)
    ensures e.Motion? && s.startPos.Some? ==>
      var c := Span(s.startPos.value, Point(e.mx, e.my));
      && r.effects == (if s.connected then [Send(Line, c)] else []) + [DrawLine(c)]
      && r.state == s.(startPos := Some(Point(e.mx, e.my))) && !r.raised
    ensures Sends(r.effects) == (if e.Motion? && s.connected && s.startPos.Some? then 1 else 0)
    ensures r.raised <==> e.Unexpected? || (e.Motion? && s.startPos.None?)
    ensures r.raised ==> r == Outcome(s, [], true)
  {
    match e
    case Press(x, y) => Outcome(s.(startPos := Some(Point(x, y))), [], false)
    case Release(_, _) => Outcome(s.(startPos := None), [], false)
    case Motion(x, y) =>
      if s.startPos.None? then Outcome(s, [], true)
      else
        var c := Span(s.startPos.value, Point(x, y));
        var send := if s.connected then [Send(Line, c)] else [];
        SendsAppend(send, [DrawLine(c)]);
        Outcome(s.(startPos := Some(Point(x, y))), send + [DrawLine(c)], false)
    case Unexpected => Outcome(s, [], true)
  }

  /** `handle_event`: dispatch on the mode; any other mode raises. */
  function HandleEvent(s: State, e: Event, drawn: Option<ItemId>): (r: Outcome)
    ensures !KnownMode(s) ==> r == Outcome(s, [], true)
    ensures r.state.mode == s.mode
  {
    match s.mode
    case Rect => HandleRect(s, e, drawn)
    case Line => HandleLine(s, e)
    case Unlisted(_) => Outcome(s, [], true)
  }

  /** A user action: a toggle click or a canvas event. */
  datatype Action = ToggleClick | CanvasEvent(event: Event, drawn: Option<ItemId>)

  function Apply(s: State, a: Action): (r: Outcome)
  {
    match a
    case ToggleClick => Toggle(s)
    case CanvasEvent(e, d) => HandleEvent(s, e, d)
  }

  function FinalState(s: State, actions: seq<Action>): State
    decreases |actions|
  {
    if |actions| == 0 then s else FinalState(Apply(s, actions[0]).state, actions[1..])
  }

  /** Starting from construction, the mode is always RECT or LINE, so the
      raising branches on the mode are never taken. */
  lemma {:induction false} ModeStaysKnown(s: State, actions: seq<Action>)
    requires KnownMode(s)
    ensures KnownMode(FinalState(s, actions))
    decreases |actions|
  {
    if |actions| > 0 {
      ModeStaysKnown(Apply(s, actions[0]).state, actions[1..]);
    }
  }

  /** The effects of a sequence of actions, in order. */
  function Effects(s: State, actions: seq<Action>): (r: seq<Effect>)
    decreases |actions|
  {
    if |actions| == 0 then []
    else Apply(s, actions[0]).effects + Effects(Apply(s, actions[0]).state, actions[1..])
  }

  /** Running two sequences of actions one after the other. */
  lemma {:induction false} EffectsAppend(s: State, a: seq<Action>, b: seq<Action>)
    ensures Effects(s, a + b) == Effects(s, a) + Effects(FinalState(s, a), b)
    ensures FinalState(s, a + b) == FinalState(FinalState(s, a), b)
    decreases |a|
  {
    if |a| == 0 {
      assert a + b == b;
    } else {
      var s1 := Apply(s, a[0]).state;
      assert (a + b)[0] == a[0];
      assert (a + b)[1..] == a[1..] + b;
      EffectsAppend(s1, a[1..], b);
    }
  }

  predicate AllMotion(actions: seq<Action>) {
    forall i :: 0 <= i < |actions| ==> actions[i].CanvasEvent? && actions[i].event.Motion?
  }

  /** Dragging a rectangle sends nothing and keeps the corner where it was. */
  lemma {:induction false} RectDragSendsNothing(s: State, motions: seq<Action>)
    requires s.mode == Rect && s.startPos.Some? && AllMotion(motions)
    ensures Sends(Effects(s, motions)) == 0
    ensures var f := FinalState(s, motions);
            f.mode == Rect && f.connected == s.connected && f.startPos == s.startPos
    decreases |motions|
  {
    if |motions| > 0 {
      var o := Apply(s, motions[0]);
      assert AllMotion(motions[1..]) by {
        forall i | 0 <= i < |motions| - 1
          ensures motions[1..][i].CanvasEvent? && motions[1..][i].event.Motion?
        {
          assert motions[1..][i] == motions[i + 1];
        }
      }
      RectDragSendsNothing(o.state, motions[1..]);
      SendsAppend(o.effects, Effects(o.state, motions[1..]));
    }
  }

  /** A whole rectangle gesture, press, any number of drags, release, sends
      exactly one rectangle when connected and none otherwise. */
  lemma RectGestureSendsOnce(s: State, press: Point, motions: seq<Action>, release: Point,
                             d0: Option<ItemId>, d1: Option<ItemId>)
    requires s.mode == Rect && AllMotion(motions)
    ensures var gesture := [CanvasEvent(Press(press.x, press.y), d0)] + motions
                           + [CanvasEvent(Release(release.x, release.y), d1)];
            Sends(Effects(s, gesture)) == (if s.connected then 1 else 0)
  {
    var first := [CanvasEvent(Press(press.x, press.y), d0)];
    var last := [CanvasEvent(Release(release.x, release.y), d1)];
    var s1 := Apply(s, first[0]).state;
    assert Effects(s, first) == [] by {
      assert Effects(s1, first[1..]) == [];
    }
    assert FinalState(s, first) == s1 by {
      assert first[1..] == [];
    }
    EffectsAppend(s, first, motions);
    RectDragSendsNothing(s1, motions);
    var s2 := FinalState(s1, motions);
    EffectsAppend(s, first + motions, last);
    var tail := Effects(s2, last);
    assert tail == Apply(s2, last[0]).effects + Effects(Apply(s2, last[0]).state, []);
    assert Sends(tail) == (if s.connected then 1 else 0) by {
      assert Apply(s2, last[0]).effects + [] == Apply(s2, last[0]).effects;
    }
    SendsAppend(Effects(s, first) + Effects(s1, motions), tail);
    SendsAppend(Effects(s, first), Effects(s1, motions));
    assert [CanvasEvent(Press(press.x, press.y), d0)] + motions
           + [CanvasEvent(Release(release.x, release.y), d1)] == (first + motions) + last;
  }
}
