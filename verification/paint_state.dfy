/** `PaintState`: the tool, thickness and gesture fields shared by the view
    and the controller, and the drawing history the tests exercise. */
module PaintState {
  import opened Common
  import opened DrawingTypes

  const THICKNESS_MIN: int := 1
  const THICKNESS_MAX: int := 10

  datatype State = State(currentType: Kind, currentThickness: int,
                         startPos: Option<Point>, lastDrawingId: Option<ItemId>)

  /** `PaintState()`: the pen at the minimum thickness, no gesture in progress. */
  function Init(): (s: State)
    ensures s.currentType == Pen
    ensures THICKNESS_MIN <= s.currentThickness <= THICKNESS_MAX
    ensures s.currentThickness == THICKNESS_MIN
    ensures s.startPos == None && s.lastDrawingId == None
  {
    State(Pen, THICKNESS_MIN, None, None)
  }

  /** `clear_drawing_state`: forgets the gesture, keeps the tool and thickness. */
  function ClearDrawingState(s: State): (r: State)
    ensures r.startPos == None && r.lastDrawingId == None
    ensures r.currentType == s.currentType && r.currentThickness == s.currentThickness
  {
    s.(startPos := None, lastDrawingId := None)
  }

  lemma ClearDrawingStateIdempotent(s: State)
    ensures ClearDrawingState(ClearDrawingState(s)) == ClearDrawingState(s)
  {
  }

  /** The initial state has no gesture, so clearing it changes nothing. */
  lemma ClearDrawingStateOfInit()
    ensures ClearDrawingState(Init()) == Init()
  {
  }

  /** One entry of the drawing history: a canvas handle and the kind of the
      drawing it came from (`None` for the rings of a ping). */
  datatype Entry = Entry(id: Option<ItemId>, shape: Option<Kind>)

  /** `add_last_drawing`, reconstructed: its implementation is not part of this
      model. An UNDO removes the most recent entry (nothing when the history is
      empty); anything else is appended. */
  function AddLastDrawing(history: seq<Entry>, id: Option<ItemId>, shape: Option<Kind>): (r: seq<Entry>)
    ensures shape == Some(Undo) ==> |r| == (if |history| == 0 then 0 else |history| - 1)
                                    && r == history[..|r|]
    ensures shape != Some(Undo) ==> |r| == |history| + 1 && r[..|history|] == history
                                    && r[|history|] == Entry(id, shape)
  {
    if shape == Some(Undo) then
      if |history| == 0 then [] else history[..|history| - 1]
    else history + [Entry(id, shape)]
  }

  /** An UNDO takes back exactly the entry added before it. */
  lemma UndoCancelsAdd(history: seq<Entry>, id: Option<ItemId>, shape: Option<Kind>, undoId: Option<ItemId>)
    requires shape != Some(Undo)
    ensures AddLastDrawing(AddLastDrawing(history, id, shape), undoId, Some(Undo)) == history
  {
    var h := AddLastDrawing(history, id, shape);
    assert h[..|h| - 1] == history;
  }

  /** A LINE followed by an UNDO leaves the history empty. */
  lemma LineThenUndoLeavesEmpty()
    ensures AddLastDrawing(AddLastDrawing([], None, Some(Line)), None, Some(Undo)) == []
  {
    UndoCancelsAdd([], None, Some(Line), None);
  }
}
