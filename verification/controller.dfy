/** The input-event state machine of `Controller`: mouse press, motion and
    release, the Escape key, the text-box confirmation, and the clear and
    thickness callbacks. The window, the view and the connection are outside
    the model; what the controller asks of them is returned as a trace of
    effects, and what they hand back (the clock, the new item's handle) is an
    input. */
module Controller {
  import opened Common
  import opened DrawingTypes
  import Codec
  import Canvas
  import View

  const TEXT_SIZE_LIMIT: nat := 128
  /** The starting thickness. The controller reads it from the view, whose
      constant is not part of this model; the application state's minimum, 1,
      is used. */
  const DEFAULT_THICKNESS: int := 1

  /** The fourth argument of the drawings this controller builds. Shapes get
      the clock; the text confirmation passes the truncated text in that
      position instead. */
  datatype Stamp = Clock(bits: Codec.Timestamp) | Label(text: string)

  datatype Drawing = Drawing(shape: Kind, thickness: int, coords: seq<int>, stamp: Stamp)

  /** What the controller asks of its collaborators, in order. */
  datatype Effect =
    | Enqueue(d: Drawing)                          // encode and add to the send queue
    | Draw(d: Drawing)                             // view.draw_shape
    | Erase(id: Option<ItemId>)                    // view.clear_drawing_by_id
    | OpenTextBox(thickness: int, coords: seq<int>) // TextEntryBox(...)

  datatype State = State(startPos: Option<Point>, lastDrawingId: Option<ItemId>,
                         cancelDrawing: bool, mode: Kind, thickness: int)

  /** The tkinter events the controller is bound to; any other event type is `Other`. */
  datatype Event = Press(px: int, py: int) | Release(rx: int, ry: int) | Motion(mx: int, my: int)
                 | KeyPress(keysym: string) | Other

  /** The state after a handler, its effects, and whether it raised part-way
      (tkinter reports the exception and keeps running; the state assignments
      after the failing line do not happen). */
  datatype Outcome = Outcome(state: State, effects: seq<Effect>, raised: bool)

  /** No drawing is sent or drawn. */
  predicate Quiet(effects: seq<Effect>) {
    forall i :: 0 <= i < |effects| ==> !effects[i].Enqueue? && !effects[i].Draw?
  }

  /** Drawings that live on screen only until the button is released. */
  function IsDraggable(k: Kind): (r: bool)
    ensures r <==> k in {Rect, Oval, Line}
  {
    k == Rect || k == Oval || k == Line
  }

  /** The erasure of the last preview that motion and release begin with for a
      draggable tool. */
  function ErasePreview(s: State): (r: seq<Effect>)
    ensures Quiet(r) && |r| <= 1
    ensures IsDraggable(s.mode) <==> r == [Erase(s.lastDrawingId)]
  {
    if IsDraggable(s.mode) then [Erase(s.lastDrawingId)] else []
  }

  function Init(): (s: State)
    ensures s.startPos == None && s.lastDrawingId == None && !s.cancelDrawing
    ensures s.mode == Pen && s.thickness == DEFAULT_THICKNESS
  {
    State(None, None, false, Pen, DEFAULT_THICKNESS)
  }

  /** `_handle_motion_event`: a draggable tool erases its last preview and draws
      a new one without sending it; any other tool sends and draws the segment
      from the start point and moves the start point along. */
  function OnMotion(s: State, p: Point, now: Codec.Timestamp, drawn: Option<ItemId>): (r: Outcome)
    ensures s.cancelDrawing ==> r == Outcome(s, ErasePreview(s), false)
    ensures !s.cancelDrawing && s.startPos.None? ==> r == Outcome(s, ErasePreview(s), true)
    ensures !s.cancelDrawing && s.startPos.Some? ==>
      var d := Drawing(s.mode, s.thickness, Span(s.startPos.value, p), Clock(now));
      && !r.raised
      && r.state.lastDrawingId == drawn
      && r.state.cancelDrawing == s.cancelDrawing && r.state.mode == s.mode
      && r.state.thickness == s.thickness
      && (IsDraggable(s.mode) ==> r.effects == ErasePreview(s) + [Draw(d)]
                                  && r.state.startPos == s.startPos)
      && (!IsDraggable(s.mode) ==> r.effects == [Enqueue(d), Draw(d)]
                                   && r.state.startPos == Some(p))
  {
    var drag := IsDraggable(s.mode);
    var erase := ErasePreview(s);
    if s.cancelDrawing then Outcome(s, erase, false)
    else if s.startPos.None? then Outcome(s, erase, true)   // None + (x, y) raises
    else
      var d := Drawing(s.mode, s.thickness, Span(s.startPos.value, p), Clock(now));
      if drag then
        Outcome(s.(lastDrawingId := drawn), erase + [Draw(d)], false)
      else
        Outcome(s.(startPos := Some(p), lastDrawingId := drawn), [Enqueue(d), Draw(d)], false)
  }

  /** `_handle_button_release_event`: erase a draggable preview, then either
      send and draw the finished drawing or, for text, open the entry box;
      whatever happened, the gesture state is reset. */
  function OnRelease(s: State, p: Point, now: Codec.Timestamp): (r: Outcome)
    ensures !r.raised
    ensures r.state == s.(startPos := None, lastDrawingId := None, cancelDrawing := false)
    ensures s.cancelDrawing || s.startPos.None? ==> r.effects == ErasePreview(s)
    ensures !s.cancelDrawing && s.startPos.Some? && s.mode != Text ==>
      var d := Drawing(s.mode, s.thickness, Span(s.startPos.value, p), Clock(now));
      r.effects == ErasePreview(s) + [Enqueue(d), Draw(d)]
    ensures !s.cancelDrawing && s.startPos.Some? && s.mode == Text ==>
      r.effects == ErasePreview(s) + [OpenTextBox(s.thickness, Span(s.startPos.value, p))]
    ensures s.mode == Text ==> Quiet(r.effects)
  {
    var erase := ErasePreview(s);
    var finish :=
      if s.cancelDrawing || s.startPos.None? then []
      else
        var coords := Span(s.startPos.value, p);
        if s.mode != Text then
          var d := Drawing(s.mode, s.thickness, coords, Clock(now));
          [Enqueue(d), Draw(d)]
        else [OpenTextBox(s.thickness, coords)];
    Outcome(s.(startPos := None, lastDrawingId := None, cancelDrawing := false), erase + finish, false)
  }

  /** `handle_event`: mouse events go to the press, motion or release handler
      (motion is ignored in PING and TEXT mode); Escape cancels the gesture;
      anything else is ignored. */
  function HandleEvent(s: State, e: Event, now: Codec.Timestamp, drawn: Option<ItemId>): (r: Outcome)
    ensures e.Press? ==> r == Outcome(s.(startPos := Some(Point(e.px, e.py))), [], false)
    ensures e.Motion? && s.mode in {Ping, Text} ==> r == Outcome(s, [], false)
    ensures e.KeyPress? ==> (&& r.effects == [] && !r.raised
                             && r.state == (if e.keysym == "Escape" then s.(cancelDrawing := true) else s))
    ensures e.Other? ==> r == Outcome(s, [], false)
    ensures r.raised ==> e.Motion? && s.startPos.None?
  {
    match e
    case Press(x, y) => Outcome(s.(startPos := Some(Point(x, y))), [], false)
    case Motion(x, y) =>
      if s.mode == Ping || s.mode == Text then Outcome(s, [], false)
      else OnMotion(s, Point(x, y), now, drawn)
    case Release(x, y) => OnRelease(s, Point(x, y), now)
    case KeyPress(k) => Outcome(if k == "Escape" then s.(cancelDrawing := true) else s, [], false)
    case Other => Outcome(s, [], false)
  }

  /** One event together with what the outside world supplies for it. */
  datatype Input = Input(event: Event, now: Codec.Timestamp, drawn: Option<ItemId>)

  /** Feeds a sequence of events through `handle_event`, collecting the effects. */
  function Run(s: State, inputs: seq<Input>): (r: (State, seq<Effect>))
    decreases |inputs|
  {
    if |inputs| == 0 then (s, [])
    else
      var o := HandleEvent(s, inputs[0].event, inputs[0].now, inputs[0].drawn);
      var (s', rest) := Run(o.state, inputs[1..]);
      (s', o.effects + rest)
  }

  /** Once cancelled, a gesture sends and draws nothing up to and including its
      release, and the release clears the cancel flag. */
  lemma {:induction false} CancelledGestureIsQuiet(s: State, inputs: seq<Input>)
    requires s.cancelDrawing
    requires forall i :: 0 <= i < |inputs| - 1 ==> !inputs[i].event.Release?
    ensures Quiet(Run(s, inputs).1)
    ensures |inputs| > 0 && inputs[|inputs| - 1].event.Release? ==>
      Run(s, inputs).0 == s.(startPos := None, lastDrawingId := None, cancelDrawing := false)
    decreases |inputs|
  {
    if |inputs| > 0 {
      var i0 := inputs[0];
      var o := HandleEvent(s, i0.event, i0.now, i0.drawn);
      var rest := inputs[1..];
      if |rest| == 0 {
        assert Run(s, inputs) == (o.state, o.effects + []);
        assert o.effects + [] == o.effects;
        if i0.event.Release? {
          assert o.state == s.(startPos := None, lastDrawingId := None, cancelDrawing := false);
        }
      } else {
        assert !i0.event.Release?;
        assert o.state.cancelDrawing;
        assert forall i :: 0 <= i < |rest| - 1 ==> !rest[i].event.Release? by {
          forall i | 0 <= i < |rest| - 1 ensures !rest[i].event.Release? {
            assert rest[i] == inputs[i + 1];
          }
        }
        CancelledGestureIsQuiet(o.state, rest);
        var (s', more) := Run(o.state, rest);
        assert Run(s, inputs) == (s', o.effects + more);
        assert inputs[|inputs| - 1] == rest[|rest| - 1];
        if o.state != s {
          assert o.state == s.(startPos := o.state.startPos);
        }
        assert Run(s, inputs).0 == Run(o.state, rest).0;
      }
    }
  }

  /** Escape followed by the rest of a gesture: nothing is sent or drawn. */
  lemma EscapeSilencesGesture(s: State, now: Codec.Timestamp, inputs: seq<Input>)
    requires forall i :: 0 <= i < |inputs| - 1 ==> !inputs[i].event.Release?
    ensures Quiet(Run(s, [Input(KeyPress("Escape"), now, None)] + inputs).1)
  {
    var all := [Input(KeyPress("Escape"), now, None)] + inputs;
    assert all[1..] == inputs;
    var s1 := s.(cancelDrawing := true);
    CancelledGestureIsQuiet(s1, inputs);
  }

  predicate AllMotion(inputs: seq<Input>) {
    forall i :: 0 <= i < |inputs| ==> inputs[i].event.Motion?
  }

  /** The trace of a freehand stroke drawn from `from`: for each cursor
      position, the segment from the previous position to it, sent and then
      drawn. */
  function Stroke(mode: Kind, thickness: int, from: Point, inputs: seq<Input>): (r: seq<Effect>)
    requires AllMotion(inputs)
    ensures |r| == 2 * |inputs|
    decreases |inputs|
  {
    if |inputs| == 0 then []
    else
      var p := Point(inputs[0].event.mx, inputs[0].event.my);
      var d := Drawing(mode, thickness, Span(from, p), Clock(inputs[0].now));
      assert AllMotion(inputs[1..]) by {
        forall i | 0 <= i < |inputs| - 1 ensures inputs[1..][i].event.Motion? {
          assert inputs[1..][i] == inputs[i + 1];
        }
      }
      [Enqueue(d), Draw(d)] + Stroke(mode, thickness, p, inputs[1..])
  }

  /** Dragging a pen or eraser sends and draws one segment per motion event,
      each starting where the previous one ended, and leaves the start point
      at the last cursor position. */
  lemma {:induction false} FreehandStroke(s: State, inputs: seq<Input>)
    requires !IsDraggable(s.mode) && s.mode != Ping && s.mode != Text
    requires !s.cancelDrawing && s.startPos.Some?
    requires AllMotion(inputs)
    ensures Run(s, inputs).1 == Stroke(s.mode, s.thickness, s.startPos.value, inputs)
    ensures Run(s, inputs).0.mode == s.mode && !Run(s, inputs).0.cancelDrawing
    ensures |inputs| > 0 ==>
      Run(s, inputs).0.startPos == Some(Point(inputs[|inputs| - 1].event.mx, inputs[|inputs| - 1].event.my))
    decreases |inputs|
  {
    if |inputs| > 0 {
      var i0 := inputs[0];
      var o := HandleEvent(s, i0.event, i0.now, i0.drawn);
      var rest := inputs[1..];
      assert AllMotion(rest) by {
        forall i | 0 <= i < |rest| ensures rest[i].event.Motion? {
          assert rest[i] == inputs[i + 1];
        }
      }
      FreehandStroke(o.state, rest);
      if |rest| > 0 {
        assert inputs[|inputs| - 1] == rest[|rest| - 1];
      }
    }
  }

  /** `_text_box_confirm_callback_generator`'s callback: the entered text cut to
      the size limit becomes a TEXT drawing that is sent and drawn. */
  function ConfirmText(thickness: int, coords: seq<int>, entered: string): (r: seq<Effect>)
    ensures |r| == 2 && r[0].Enqueue? && r[1] == Draw(r[0].d)
    ensures r[0].d.shape == Text && r[0].d.thickness == thickness && r[0].d.coords == coords
    ensures r[0].d.stamp.Label?
    ensures |r[0].d.stamp.text| <= TEXT_SIZE_LIMIT
    ensures r[0].d.stamp.text <= entered
    ensures |entered| <= TEXT_SIZE_LIMIT ==> r[0].d.stamp.text == entered
    ensures |entered| > TEXT_SIZE_LIMIT ==> |r[0].d.stamp.text| == TEXT_SIZE_LIMIT
  {
    var kept := if |entered| <= TEXT_SIZE_LIMIT then entered else entered[..TEXT_SIZE_LIMIT];
    var d := Drawing(Text, thickness, coords, Label(kept));
    [Enqueue(d), Draw(d)]
  }

  /** `clear_callback`: one CLEAR drawing with thickness 0 and zero coordinates,
      drawn and then sent. */
  function ClearCallback(now: Codec.Timestamp): (r: seq<Effect>)
    ensures |r| == 2 && r[0].Draw? && r[1] == Enqueue(r[0].d)
    ensures r[0].d.shape == Clear && r[0].d.thickness == 0 && r[0].d.coords == [0, 0, 0, 0]
  {
    var d := Drawing(Clear, 0, [0, 0, 0, 0], Clock(now));
    [Draw(d), Enqueue(d)]
  }

  /** The clear drawing wipes the local canvas, whatever colour and text the
      view reads with it. */
  lemma ClearCallbackClearsCanvas(now: Codec.Timestamp, colour: string, text: string,
                                  created: ItemId, idAvailable: bool, lastId: ItemId)
    ensures var d := ClearCallback(now)[0].d;
      && View.DrawShape(View.Shape(d.shape, d.thickness, d.coords, colour, text), created)
         == View.Rendered(Some(View.ClearCanvas), false, None)
      && View.Perform(View.ClearCanvas, idAvailable, lastId) == Some([Canvas.DeleteAll])
  {
  }

  /** The record sent for the clear drawing decodes at the peer to a CLEAR
      drawing with the same thickness, coordinates and clock. */
  lemma ClearCallbackReachesPeer(now: Codec.Timestamp)
    ensures var d := ClearCallback(now)[1].d;
      Codec.DecodeDrawing(Codec.Encode(Codec.Drawing(Clear, d.thickness, d.coords, now)))
        == Some(Codec.Drawing(Clear, 0, [0, 0, 0, 0], now))
  {
    Codec.RoundTrip(Codec.Drawing(Clear, 0, [0, 0, 0, 0], now));
  }

  /** `thickness_callback`: only the thickness changes. */
  function ThicknessCallback(s: State, value: int): (r: State)
    ensures r.thickness == value
    ensures r.(thickness := s.thickness) == s
  {
    s.(thickness := value)
  }
}
