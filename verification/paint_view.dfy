/** `PaintView.draw_shape`: the dispatch from a drawing's kind to the one
    canvas method that renders it. */
module View {
  import opened Common
  import opened DrawingTypes
  import Canvas

  /** The fields `draw_shape` reads. Colour and text belong to a revision of
      the drawing record that is not part of this model. */
  datatype Shape = Shape(shape: Kind, thickness: int, coords: seq<int>, colour: string, text: string)

  /** The canvas methods `draw_shape` can call, with their arguments. */
  datatype CanvasCall =
    | DrawLine(coords: seq<int>, thickness: int, colour: string)
    | DrawRect(coords: seq<int>, thickness: int, colour: string)
    | DrawOval(coords: seq<int>, thickness: int, colour: string)
    | DrawEraserLine(coords: seq<int>, thickness: int, colour: string)
    | DrawPing(coords: seq<int>, thickness: int, colour: string)
    | DrawText(coords: seq<int>, thickness: int, colour: string, text: string)
    | ClearCanvas
    | UndoLast

  /** The call made, if any, whether that call raised, and the handle
      `draw_shape` returns. `draw_ping` and `draw_text` index the first
      coordinate pair and raise `IndexError` on shorter coordinates; nothing
      catches it, so `draw_shape` returns no handle then. */
  datatype Rendered = Rendered(call: Option<CanvasCall>, raised: bool, handle: Option<ItemId>)

  /** The kinds whose canvas method returns the new item's handle. `draw_ping`
      returns nothing, so a ping yields no handle either. */
  predicate YieldsHandle(k: Kind) {
    k in {Pen, Rect, Oval, Line, Eraser, Text}
  }

  /** The kinds whose canvas method reads `coords[0]` and `coords[1]`. */
  predicate IndexesCoords(k: Kind) {
    k == Ping || k == Text
  }

  /** `draw_shape`, given the handle the toolkit assigns to a created item. */
  function DrawShape(d: Shape, created: ItemId): (r: Rendered)
    ensures r.call.None? <==> d.shape == Sync
    ensures r.raised <==> IndexesCoords(d.shape) && |d.coords| < 2
    ensures r.handle.Some? <==> YieldsHandle(d.shape) && !r.raised
    ensures r.handle.Some? ==> r.handle.value == created
    ensures d.shape == Clear ==> r.call == Some(ClearCanvas)
    ensures d.shape == Undo ==> r.call == Some(UndoLast)
    ensures r.call.Some? && d.shape != Clear && d.shape != Undo ==>
      && !r.call.value.ClearCanvas? && !r.call.value.UndoLast?
      && r.call.value.coords == d.coords
      && r.call.value.thickness == d.thickness
      && r.call.value.colour == d.colour
    ensures d.shape == Text ==> r.call.value.DrawText? && r.call.value.text == d.text
    ensures d.shape in {Pen, Line} ==> r.call.value.DrawLine?
    ensures d.shape == Rect ==> r.call.value.DrawRect?
    ensures d.shape == Oval ==> r.call.value.DrawOval?
    ensures d.shape == Eraser ==> r.call.value.DrawEraserLine?
    ensures d.shape == Ping ==> r.call.value.DrawPing?
  {
    var short := |d.coords| < 2;
    match d.shape
    case Pen => Rendered(Some(DrawLine(d.coords, d.thickness, d.colour)), false, Some(created))
    case Rect => Rendered(Some(DrawRect(d.coords, d.thickness, d.colour)), false, Some(created))
    case Oval => Rendered(Some(DrawOval(d.coords, d.thickness, d.colour)), false, Some(created))
    case Line => Rendered(Some(DrawLine(d.coords, d.thickness, d.colour)), false, Some(created))
    case Eraser => Rendered(Some(DrawEraserLine(d.coords, d.thickness, d.colour)), false, Some(created))
    case Ping => Rendered(Some(DrawPing(d.coords, d.thickness, d.colour)), short, None)
    case Clear => Rendered(Some(ClearCanvas), false, None)
    case Text =>
      Rendered(Some(DrawText(d.coords, d.thickness, d.colour, d.text)), short,
               if short then None else Some(created))
    case Undo => Rendered(Some(UndoLast), false, None)
    case Sync => Rendered(None, false, None)
  }

  /** A pen stroke and a line are rendered by the same call. */
  lemma PenRendersAsLine(d: Shape, created: ItemId)
    requires d.shape == Pen
    ensures DrawShape(d, created) == DrawShape(d.(shape := Line), created)
  {
  }

  /** The toolkit commands a canvas call issues, given whether the drawing
      history has an id available and which id is last; `None` where the
      canvas method raises. */
  function Perform(call: CanvasCall, idAvailable: bool, lastId: ItemId): (r: Option<seq<Canvas.Command>>)
    ensures r.None? <==> (call.DrawPing? || call.DrawText?) && |call.coords| < 2
    ensures call.UndoLast? ==> r == Some(Canvas.UndoCommands(idAvailable, lastId))
    ensures call.DrawPing? && r.Some? ==> r == Canvas.DrawPing(call.coords, call.thickness, call.colour)
    ensures r.Some? && !call.DrawPing? && !call.UndoLast? ==> |r.value| == 1
    ensures call.DrawEraserLine? ==> r.value == [Canvas.DrawEraserLine(call.coords, call.thickness, call.colour)]
  {
    match call
    case DrawLine(c, t, col) => Some([Canvas.CreateLine(c, t, col)])
    case DrawRect(c, t, col) => Some([Canvas.CreateRectangle(c, t, col)])
    case DrawOval(c, t, col) => Some([Canvas.CreateOval(c, t, col)])
    case DrawEraserLine(c, t, col) => Some([Canvas.DrawEraserLine(c, t, col)])
    case DrawPing(c, t, col) => Canvas.DrawPing(c, t, col)
    case DrawText(c, t, col, txt) =>
      var text := Canvas.DrawText(c, t, col, txt);
      if text.None? then None else Some([text.value])
    case ClearCanvas => Some([Canvas.DeleteAll])
    case UndoLast => Some(Canvas.UndoCommands(idAvailable, lastId))
  }

  /** `draw_shape` raises exactly when the canvas method it calls does, and
      the handle it returns belongs to a command that creates an item. */
  lemma RaisesWithCanvas(d: Shape, created: ItemId, idAvailable: bool, lastId: ItemId)
    requires d.shape != Sync
    ensures DrawShape(d, created).raised <==> Perform(DrawShape(d, created).call.value, idAvailable, lastId).None?
    ensures DrawShape(d, created).handle.Some? ==>
      var cmds := Perform(DrawShape(d, created).call.value, idAvailable, lastId).value;
      |cmds| == 1 && (cmds[0].CreateLine? || cmds[0].CreateRectangle? || cmds[0].CreateOval? || cmds[0].CreateText?)
  {
  }

  /** UNDO deletes the last item exactly when an id is available; CLEAR deletes everything. */
  lemma UndoAndClearCommands(d: Shape, created: ItemId, idAvailable: bool, lastId: ItemId)
    requires d.shape == Undo || d.shape == Clear
    ensures var cmds := Perform(DrawShape(d, created).call.value, idAvailable, lastId).value;
      && (d.shape == Undo ==> (cmds == [Canvas.Delete(lastId)] <==> idAvailable) && (cmds == [] <==> !idAvailable))
      && (d.shape == Clear ==> cmds == [Canvas.DeleteAll])
  {
  }

  /** Whatever colour an eraser stroke carries, it is painted in the canvas
      background colour. */
  lemma EraserPaintsBackground(d: Shape, created: ItemId, idAvailable: bool, lastId: ItemId)
    requires d.shape == Eraser
    ensures Perform(DrawShape(d, created).call.value, idAvailable, lastId).value[0].colour
            == Canvas.CANVAS_BACKGROUND_COLOR
  {
  }
}
