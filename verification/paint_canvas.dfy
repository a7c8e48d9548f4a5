/** `PaintCanvas`: how each kind of drawing becomes toolkit commands. The
    toolkit itself is outside the model; each method is a function from its
    arguments to the commands it issues, in order. */
module Canvas {
  import opened Common

  const CANVAS_BACKGROUND_COLOR: string := "#ffffff"
  const NUM_PINGS: nat := 3
  const PING_RADIUS_FACTOR: nat := 10
  const PING_DELAY_MS: nat := 100
  const FONT_BASE_SIZE: int := 10

  datatype Command =
    | CreateRectangle(coords: seq<int>, width: int, colour: string)
    | CreateOval(coords: seq<int>, width: int, colour: string)
    | CreateLine(coords: seq<int>, width: int, colour: string)          // round caps
    | CreateText(x: int, y: int, fontSize: int, text: string, colour: string)  // anchored west
    | Delete(id: ItemId)
    | DeleteAll
    | RecordLastDrawing        // application_state.add_last_drawing(the new oval's id, None)
    | Refresh                  // controller.update()
    | Pause(ms: nat)           // sleep
    | Undo                     // self.undo()

  /** `draw_eraser_line`: a line in the background colour, whatever colour is asked for. */
  function DrawEraserLine(coords: seq<int>, thickness: int, colour: string): (r: Command)
    ensures r.CreateLine? && r.coords == coords && r.width == thickness
    ensures r.colour == CANVAS_BACKGROUND_COLOR
  {
    CreateLine(coords, thickness, CANVAS_BACKGROUND_COLOR)
  }

  lemma EraserIgnoresColour(coords: seq<int>, thickness: int, a: string, b: string)
    ensures DrawEraserLine(coords, thickness, a) == DrawEraserLine(coords, thickness, b)
  {
  }

  /** `undo`: deletes the last recorded item only when one is available. */
  function UndoCommands(idAvailable: bool, lastId: ItemId): (r: seq<Command>)
    ensures idAvailable <==> r == [Delete(lastId)]
    ensures !idAvailable <==> r == []
  {
    if idAvailable then [Delete(lastId)] else []
  }

  /** The bounding box of the ring of radius r around (x, y). */
  function RingBox(x: int, y: int, r: int): (box: seq<int>)
    ensures |box| == 4
    ensures box[2] - box[0] == box[3] - box[1] == 2 * r
    ensures box[0] + box[2] == 2 * x && box[1] + box[3] == 2 * y
  {
    [x - r, y - r, x + r, y + r]
  }

  /** The commands for ring i of a ping: drawn, recorded, shown, held, undone. */
  function Ring(x: int, y: int, i: nat, thickness: int, colour: string): (r: seq<Command>)
  {
    [CreateOval(RingBox(x, y, i * PING_RADIUS_FACTOR), thickness, colour),
     RecordLastDrawing, Refresh, Pause(PING_DELAY_MS), Undo]
  }

  /** Rings i..NUM_PINGS of a ping, in order. */
  function RingsFrom(x: int, y: int, i: nat, thickness: int, colour: string): (r: seq<Command>)
    requires 1 <= i <= NUM_PINGS + 1
    ensures |r| == 5 * (NUM_PINGS + 1 - i)
    decreases NUM_PINGS + 1 - i
  {
    if i > NUM_PINGS then [] else Ring(x, y, i, thickness, colour) + RingsFrom(x, y, i + 1, thickness, colour)
  }

  /** With NUM_PINGS = 3 the loop unrolls into three rings, radius factor 1, 2, 3. */
  lemma RingsUnrolled(x: int, y: int, thickness: int, colour: string)
    ensures RingsFrom(x, y, 1, thickness, colour)
         == Ring(x, y, 1, thickness, colour) + Ring(x, y, 2, thickness, colour)
            + Ring(x, y, 3, thickness, colour)
  {
    assert RingsFrom(x, y, 4, thickness, colour) == [];
    assert RingsFrom(x, y, 3, thickness, colour) == Ring(x, y, 3, thickness, colour);
  }

  /** `draw_ping`: NUM_PINGS rings around the first coordinate pair; `None`
      where the coordinates are too short to index. */
  function DrawPing(coords: seq<int>, thickness: int, colour: string): (r: Option<seq<Command>>)
    ensures r.None? <==> |coords| < 2
    ensures r.Some? ==> |r.value| == 5 * NUM_PINGS
  {
    if |coords| < 2 then None else Some(RingsFrom(coords[0], coords[1], 1, thickness, colour))
  }

  /** A ping draws three circles of radius 10, 20 and 30 centred on its first
      point, each one drawn, recorded and then undone before the next. */
  lemma PingGeometry(coords: seq<int>, thickness: int, colour: string, k: nat)
    requires |coords| >= 2 && k < NUM_PINGS
    ensures var cmds := DrawPing(coords, thickness, colour).value;
            var oval := cmds[5 * k];
            && oval.CreateOval?
            && oval.coords == RingBox(coords[0], coords[1], 10 * (k + 1))
            && oval.coords[0] + oval.coords[2] == 2 * coords[0]
            && oval.coords[1] + oval.coords[3] == 2 * coords[1]
            && cmds[5 * k + 1] == RecordLastDrawing
            && cmds[5 * k + 4] == Undo
            && (k + 1 < NUM_PINGS ==> cmds[5 * (k + 1)].coords[2] - cmds[5 * (k + 1)].coords[0]
                                      > oval.coords[2] - oval.coords[0])
  {
    RingsUnrolled(coords[0], coords[1], thickness, colour);
  }

  /** `draw_text`'s font size: the base size at thickness 1, two points more
      for every further unit. */
  function FontSize(thickness: int): (size: int)
    ensures thickness >= 1 ==> size >= FONT_BASE_SIZE
    ensures (size - FONT_BASE_SIZE) % 2 == 0
  {
    FONT_BASE_SIZE + (thickness - 1) * 2
  }

  lemma FontSizeSteps(thickness: int)
    ensures FontSize(1) == FONT_BASE_SIZE
    ensures FontSize(thickness + 1) == FontSize(thickness) + 2
  {
  }

  /** `draw_text`: the text is anchored at the first coordinate pair; `None`
      where the coordinates are too short to index. */
  function DrawText(coords: seq<int>, thickness: int, colour: string, text: string): (r: Option<Command>)
    ensures r.None? <==> |coords| < 2
    ensures r.Some? ==> r.value.CreateText? && r.value.x == coords[0] && r.value.y == coords[1]
                        && r.value.text == text && r.value.colour == colour
                        && r.value.fontSize == FontSize(thickness)
  {
    if |coords| < 2 then None else Some(CreateText(coords[0], coords[1], FontSize(thickness), text, colour))
  }

  /** Only the first two coordinates matter to text. */
  lemma TextIgnoresTail(a: seq<int>, b: seq<int>, thickness: int, colour: string, text: string)
    requires |a| >= 2 && |b| >= 2 && a[..2] == b[..2]
    ensures DrawText(a, thickness, colour, text) == DrawText(b, thickness, colour, text)
  {
    assert a[0] == a[..2][0] == b[..2][0] == b[0];
    assert a[1] == a[..2][1] == b[..2][1] == b[1];
  }
}
