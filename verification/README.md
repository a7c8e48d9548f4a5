# pypaint in Dafny

A model of the core of pypaint, a two-player network paint program. The
model covers:

- **Codec** (`drawing.py`, `drawing_type.py`): the binary format of one
  drawing. This is a 32-byte native record `"diI4i"`: an 8-byte timestamp, a
  signed kind value, an unsigned thickness and four signed coordinates. The
  model also covers the 8-byte `"II"` header (version 1, body length) and the
  batch decoder that cuts a byte string into records.
- **Connection** (`connection.py`), its sequential parts only:
  - the socket-present / socket-absent lifecycle;
  - the send queue and its drain-and-join batching;
  - the frame a send puts on the wire, and the receiver's header parse;
  - the retry loop of `_connect_to_peer`, given the outcomes of the attempts.
- **Controller** (`controller.py`): the mouse and keyboard state machine. It
  covers press, motion, release and Escape, the text-box confirmation, and the
  clear and thickness callbacks.
- **PaintController** (`paint_controller.py`): the older RECT/LINE toggle
  controller.
- **Small pure pieces**:
  - `PaintState`'s initial state and gesture reset (`paint_state.py`);
  - the canvas commands of `paint_canvas.py`: ping rings, font size, eraser
    colour and the undo guard;
  - `draw_shape`'s dispatch from kind to canvas call (`paint_view.py`).

The modelling conventions are:

- Bytes are `seq<bv8>`. The `struct` packing is little-endian base-256 with
  two's complement for the signed fields. The `Struct` module spells it out;
  nothing is hidden behind an external call.
- The timestamp is kept as its 8 bytes and compared bitwise.
- Controllers are pure functions from (state, event) to (state, effect trace,
  raised). A Python exception raised part-way through a handler sets `raised`,
  and leaves only the effects and assignments that came before the failing
  line.
- The world's answers are inputs: the clock, the handle the canvas assigns,
  the outcome of each `connect`.

The files come from several revisions of the program and do not agree on
every API. Each file is modelled against its own text:

- TEXT, UNDO and SYNC appear in `controller.py` and `paint_view.py` but not in
  `DrawingType`. They are reconstructed as kinds without a wire value
  (`DrawingTypes.HasValue`).
- `controller.py` passes the confirmed text where `Drawing` takes its
  timestamp. The controller's drawings therefore carry a `Stamp` that is
  either a clock reading or a label.
- The test for `decode_drawing` unpacks a (drawing, length) pair. The code
  returns only the drawing, and the model follows the code.

## Model

| member | source | states |
|---|---|---|
| Struct.U32RoundTrip | pypaint/drawing.py:19-20 | unpacking an unsigned field gives back every value in [0, 2^32) that was packed |
| Struct.U32BytesRoundTrip | pypaint/drawing.py:19-20 | every 4 bytes are the packing of what they unpack to |
| Struct.I32RoundTrip | pypaint/drawing.py:19-20 | unpacking a signed field gives back every value in [-2^31, 2^31) that was packed |
| Struct.I32BytesRoundTrip | pypaint/drawing.py:19-20 | every 4 bytes are the two's-complement packing of what they unpack to |
| Struct.PackPair | pypaint/drawing.py:15-17 | the "II" packing is 8 bytes: the first field's 4 bytes, then the second's |
| Struct.PairRoundTrip | pypaint/drawing.py:15-17 | unpacking a packed pair gives back both fields |
| Struct.PairBytesRoundTrip | pypaint/drawing.py:15-17 | every 8 bytes are the packing of the pair they unpack to |
| DrawingTypes.Value | pypaint/drawing_type.py:6-12 | each member's value lies in 1..7 and is its position in declaration order |
| DrawingTypes.FromValue | pypaint/drawing_type.py:4-12 | the lookup `DrawingType(v)` succeeds exactly for v in 1..7, and yields the member whose value is v |
| DrawingTypes.SevenMembers | pypaint/drawing_type.py:6-12 | exactly seven kinds have a value; they are the members, with values 1..7 in order |
| DrawingTypes.ValuesDistinct | pypaint/drawing_type.py:6-12 | two members have the same value only if they are the same member |
| DrawingTypes.FromValueOfValue | pypaint/drawing.py:82 | looking up a member's value gives the member back |
| DrawingTypes.ValueOfFromValue | pypaint/drawing.py:82-85 | values 1..7 look up to a member with that value; every other integer fails |
| DrawingTypes.Name | pypaint/drawing_type.py:14-19 | `__str__` gives every member a non-empty name |
| DrawingTypes.NameInjective | pypaint/drawing_type.py:14-19 | distinct members have distinct names |
| Codec.Equals | pypaint/drawing.py:104-110 | `__eq__` holds exactly when timestamp, kind, thickness and coordinates all agree |
| Codec.Encode | pypaint/drawing.py:31-42 | the record is exactly 32 bytes when `pack` accepts the drawing; it is empty exactly when thickness or a coordinate is out of range or there are not four coordinates |
| Codec.EncodeLayout | pypaint/drawing.py:36-37 | the record holds timestamp, kind value, thickness and the four coordinates, at byte offsets 0, 8, 12, 16, 20, 24, 28 |
| Codec.DecodeDrawing | pypaint/drawing.py:72-86 | `None` for every input that is not 32 bytes; on 32 bytes, a drawing exactly when the kind field holds 1..7; a decoded drawing is always encodable |
| Codec.DecodeThenEncode | pypaint/drawing.py:79-83 | a record that decodes is the encoding of what it decodes to |
| Codec.RoundTrip | pypaint/drawing.py:72-86 | decoding the encoding of an encodable drawing gives an equal drawing |
| Codec.UnknownKindRejected | pypaint/drawing.py:82-85 | a valid record with its kind field replaced by a value outside 1..7 decodes to `None` |
| Codec.DecodeDrawings | pypaint/drawing.py:60-69 | one entry per whole 32-byte record |
| Codec.DecodeDrawingsCons | pypaint/drawing.py:64-69 | decoding a record followed by more bytes gives that record's decode, then the decode of the rest |
| Codec.BatchRoundTrip | pypaint/drawing.py:60-69 | decoding the concatenated records of encodable drawings gives those drawings in order |
| Codec.TrailingBytesDropped | pypaint/drawing.py:65 | bytes after the last whole record do not change the result |
| Codec.CreateHeader | pypaint/drawing.py:45-57 | the header is 8 bytes when the body length fits an unsigned field, and empty otherwise |
| Codec.DecodeHeader | pypaint/drawing.py:88-99 | a pair exactly when the input is 8 bytes; both fields unsigned 32-bit; the input is their packing |
| Codec.HeaderRoundTrip | pypaint/drawing.py:45-57 | decoding a created header gives (1, body length) |
| Connection.SetSocket | pypaint/connection.py:89-97 | setting a socket starts an empty send queue |
| Connection.AddToSendQueue | pypaint/connection.py:130-135 | with no socket nothing changes; with one, the data is appended after the existing items |
| Connection.Close | pypaint/connection.py:115-128 | afterwards no socket is set; with a socket, it is closed and exactly one sentinel is queued; without one, nothing happens |
| Connection.CloseIdempotent | pypaint/connection.py:115-128 | a second close has no effects, and a close queues at most one sentinel |
| Connection.CreateDataHeader | pypaint/connection.py:166-170 | the data header exists exactly when the length fits an unsigned field, and is 8 bytes |
| Connection.DataHeaderIsMessageHeader | pypaint/connection.py:166-170 | the data header is the message header of the drawing format, with the same version and size |
| Connection.ReadLength | pypaint/connection.py:194-201 | the header parse succeeds exactly on 8 bytes and yields an unsigned 32-bit length |
| Connection.ReadLengthIgnoresVersion | pypaint/connection.py:198-199 | whatever version a header carries, the parse yields its length field |
| Connection.FrameLayout | pypaint/connection.py:145-147 | a frame is the 8-byte header (1, body length) then the body unchanged, and parsing its header recovers the body length |
| Connection.TakeBatch | pypaint/connection.py:154-164 | an empty queue blocks; with more than one item reported, that many are taken, joined in queue order; otherwise exactly the first item is taken |
| Connection.SendOnce | pypaint/connection.py:141-147 | a send pass without a socket does nothing; with one, the socket stays |
| Connection.SendOnceKeepsOrder | pypaint/connection.py:143-147 | what one pass sends, then what it leaves queued, is the old queue's bytes in order |
| Connection.RunKeepsOrder | pypaint/connection.py:154-164 | over any interleaving of puts and send passes, the bytes sent followed by the bytes still queued are all bytes put, in order |
| Connection.OnHeader | pypaint/connection.py:179-187 | the receiver stops without a socket; an empty read closes the connection with exactly the close effects; a non-empty read yields a body length exactly when it is 8 bytes |
| Connection.ReceiverReadsFrameBody | pypaint/connection.py:199-200 | given the header of a frame the sender built, the receiver asks `recv` for exactly that frame's body length |
| Connection.ConnectToPeer | pypaint/connection.py:62-87 | at most three attempts, stopping at the first success; connected exactly when some attempt succeeds; sleeps 1, 2, ... seconds after every failed attempt, the last included |
| Connection.AllAttemptsFail | pypaint/connection.py:71-80 | three failures sleep 1, 2 and 3 seconds |
| Connection.ConnectToPeerIntended | pypaint/connection.py:71-80 | the same loop sleeping only between attempts: one sleep fewer than attempts |
| Connection.AllAttemptsFailIntended | pypaint/connection.py:79-80 | with the intended guard, three failures sleep 1 and 2 seconds |
| Connection.Startup | pypaint/connection.py:28-45 | with a socket already set nothing changes; listening sets the accepted socket; dialling ends with the dialled socket exactly when some attempt succeeds, after sleeping 1, 2, … seconds once per failed attempt before the first success, and sleeps 1, 2 and 3 seconds when all three fail |
| Connection.StartupIntended | pypaint/connection.py:28-45 | startup with the corrected retry loop: the same socket outcome, but a dial that fails throughout sleeps 1 and 2 seconds only |
| Controller.IsDraggable | pypaint/controller.py:109-115 | exactly RECT, OVAL and LINE are drawn as temporary previews |
| Controller.ErasePreview | pypaint/controller.py:145-146 | a draggable tool erases the last preview's id; no other tool erases anything |
| Controller.Init | pypaint/controller.py:26-32 | no gesture, no cancel, pen mode, minimum thickness |
| Controller.OnMotion | pypaint/controller.py:142-158 | a draggable tool erases and redraws its preview, never sends, keeps the start point and records the new id; another tool sends and draws one segment from the start point and moves the start point to the cursor; while cancelled nothing is sent or drawn; a missing start point raises |
| Controller.OnRelease | pypaint/controller.py:160-178 | every release resets start point, preview id and cancel flag; a live, uncancelled gesture sends and draws one drawing, or opens the text box in TEXT mode; text mode never sends |
| Controller.HandleEvent | pypaint/controller.py:102-134 | a press records the start point; motion in PING or TEXT mode does nothing; Escape sets the cancel flag; other keys and events change nothing; only motion without a start point raises |
| Controller.CancelledGestureIsQuiet | pypaint/controller.py:148-178 | once cancelled, a gesture sends and draws nothing up to and including its release, and the release clears the flag |
| Controller.EscapeSilencesGesture | pypaint/controller.py:117-121 | Escape followed by the rest of a gesture sends and draws nothing |
| Controller.FreehandStroke | pypaint/controller.py:149-156 | dragging a pen or eraser sends and draws one segment per motion, each beginning where the previous ended, and leaves the start point at the last cursor position |
| Controller.ConfirmText | pypaint/controller.py:187-197 | the confirmed text is a prefix of the entry, at most 128 characters, the whole entry when it fits; the TEXT drawing is sent and then drawn |
| Controller.ClearCallback | pypaint/controller.py:94-100 | exactly one CLEAR drawing, thickness 0 and coordinates (0, 0, 0, 0), is drawn and then sent |
| Controller.ClearCallbackClearsCanvas | pypaint/controller.py:98-99 | the clear drawing wipes the local canvas, whatever colour and text it carries |
| Controller.ClearCallbackReachesPeer | pypaint/controller.py:98-100 | the record sent for the clear drawing decodes at the peer to the same CLEAR drawing |
| Controller.ThicknessCallback | pypaint/controller.py:88-92 | only the thickness changes |
| PaintController.Init | pypaint/paint_controller.py:18-24 | RECT mode with no gesture |
| PaintController.Toggle | pypaint/paint_controller.py:53-62 | RECT and LINE swap, changing nothing else; any other mode raises and changes nothing |
| PaintController.ToggleTwice | pypaint/paint_controller.py:57-60 | toggling twice restores the state |
| PaintController.HandleRect | pypaint/paint_controller.py:75-101 | a press records the corner and does nothing else; motion erases the preview, draws the new one, records its id and never sends; release sends one rectangle only when connected, then erases and redraws, and resets the gesture; an unexpected event, or a drag or release without a start point, raises |
| PaintController.HandleLine | pypaint/paint_controller.py:103-125 | a press records the start point and does nothing else; motion sends the segment when connected, draws it and advances the start point; release only forgets the start point; an unexpected event or motion without a start point raises |
| PaintController.HandleEvent | pypaint/paint_controller.py:64-73 | any mode other than RECT or LINE raises; the mode never changes |
| PaintController.ModeStaysKnown | pypaint/paint_controller.py:53-73 | starting in RECT or LINE, the mode stays RECT or LINE whatever the user does |
| PaintController.RectDragSendsNothing | pypaint/paint_controller.py:96-99 | dragging a rectangle sends nothing and keeps the corner |
| PaintController.RectGestureSendsOnce | pypaint/paint_controller.py:86-99 | a press, any drags and a release send exactly one rectangle when connected and none otherwise |
| PaintState.Init | pypaint/paint_state.py:6-17 | pen, thickness at the minimum 1 and within [1, 10], no gesture |
| PaintState.ClearDrawingState | pypaint/paint_state.py:19-21 | the gesture is forgotten; tool and thickness are kept |
| PaintState.ClearDrawingStateIdempotent | pypaint/paint_state.py:19-21 | clearing twice is clearing once |
| PaintState.ClearDrawingStateOfInit | pypaint/paint_state.py:9-21 | clearing the initial state changes nothing |
| PaintState.AddLastDrawing | tests/pypaint/test_paint_state.py:16-26 | an UNDO drops the most recent entry and keeps the rest; anything else is appended after the existing entries |
| PaintState.UndoCancelsAdd | tests/pypaint/test_paint_state.py:16-26 | an UNDO right after an addition restores the history |
| PaintState.LineThenUndoLeavesEmpty | tests/pypaint/test_paint_state.py:20-26 | a LINE then an UNDO leave the history empty |
| Canvas.DrawEraserLine | pypaint/paint_canvas.py:53-59 | a line through the given points, always in the background colour "#ffffff" |
| Canvas.EraserIgnoresColour | pypaint/paint_canvas.py:57-59 | the colour passed to an eraser line makes no difference |
| Canvas.UndoCommands | pypaint/paint_canvas.py:61-67 | the last item is deleted exactly when an id is available, and nothing happens otherwise |
| Canvas.RingBox | pypaint/paint_canvas.py:81-82 | a square of side 2r centred on (x, y) |
| Canvas.RingsUnrolled | pypaint/paint_canvas.py:80 | the ping loop runs rings 1, 2 and 3, in that order |
| Canvas.DrawPing | pypaint/paint_canvas.py:75-87 | a ping issues five commands per ring for three rings; coordinates too short to index raise |
| Canvas.PingGeometry | pypaint/paint_canvas.py:79-87 | ring k is a circle of radius 10(k+1) centred on the first point, strictly larger than the one before; it is drawn, recorded and then undone |
| Canvas.FontSize | pypaint/paint_canvas.py:93 | at least the base size 10 from thickness 1 up, always an even step above it |
| Canvas.FontSizeSteps | pypaint/paint_canvas.py:93 | 10 at thickness 1, and 2 more per unit of thickness |
| Canvas.DrawText | pypaint/paint_canvas.py:89-97 | text anchored at the first coordinate pair, with the given text, colour and the font size for the thickness; too short coordinates raise |
| Canvas.TextIgnoresTail | pypaint/paint_canvas.py:94 | coordinates after the first pair do not matter |
| View.DrawShape | pypaint/paint_view.py:40-81 | at most one canvas call, none exactly for SYNC; CLEAR clears and UNDO undoes; every other kind passes coordinates, thickness and colour through, and TEXT its text too; TEXT and PING raise exactly when they have fewer than two coordinates; a handle is returned exactly for the kinds whose call returns one and only when nothing is raised |
| View.Perform | pypaint/paint_canvas.py:32-97 | the canvas commands each call issues: one create command for a shape or text, the guarded delete for an undo, the ping rings, and nothing at all where indexing the coordinates raises |
| View.RaisesWithCanvas | pypaint/paint_view.py:65-75 | drawing raises exactly when the canvas call it makes raises, and a returned handle comes from a single create command |
| View.UndoAndClearCommands | pypaint/paint_view.py:69-77 | UNDO deletes the last item exactly when an id is available and does nothing otherwise; CLEAR deletes everything |
| View.PenRendersAsLine | pypaint/paint_view.py:45-60 | PEN and LINE render through the same call with the same arguments |
| View.EraserPaintsBackground | pypaint/paint_view.py:61-64 | whatever colour an eraser drawing carries, the canvas draws its line in the background colour |

## Left out

- Listener errors are not modelled: `bind`, `listen` or `accept` can raise in
  `_wait_for_connection` (connection.py:53-56), which ends the thread with no
  socket set. `Connection.Startup` always sets the accepted socket.
- Threads, sockets, the selector, blocking `Queue.get`, real sleeping and logging
  in `connection.py` are concurrency and I/O. The sender and receiver are
  modelled as single passes, and sleeps as a trace of durations.
- The float meaning of the timestamp is left out: `time()`, `__lt__` ordering
  and NaN comparison. The timestamp is kept as opaque bits.
- All tkinter widgets and the toolkit's `create_*` calls are a foreign
  library; they appear only as abstract commands. This covers the toolbar,
  setup view, text entry box, main window and the draw-queue thread of
  `paint_view.py`.
- `__main__.py`, `main.py` and `setup.py` are bootstrapping and packaging.
- `Controller.set_mode_generator`, `update_tool_text`, `swap_views`,
  `_decode_and_draw`, `stop` and the host/connect callbacks are left out. They
  only wire widgets to the pieces modelled here, and the callbacks call
  `startup_accept` / `startup_connect`, which `connection.py` does not define.
- The shape type enumeration imported by `paint_controller.py` is not part of
  this model. Only the names RECT and LINE are modelled; `Unlisted` stands for
  the rest.
- `add_last_drawing`, `id_available` and `get_last_drawing_id` of the drawing
  history are not part of this model. `PaintState.AddLastDrawing` is
  reconstructed from the one test that exercises it.
- Controller.ThicknessCallback: takes an integer, so it does not model the
  `int()` conversion of a string, or its `ValueError`.
- Controller.Init: uses 1 for the starting thickness, because the view
  constant it reads is not part of this model.
- Codec.Equals: compares coordinates as sequences, so it does not model
  Python's rule that a list never equals a tuple. The model has no such
  distinction.
- Codec.DecodeDrawing: returns only the drawing, as the code does; the test
  that expects a (drawing, length) pair is not followed.
- View.DrawShape: PING yields no handle, because `draw_ping` returns nothing,
  and neither does a TEXT or PING drawing that raises `IndexError`. It does not
  follow the reading that every non-CLEAR/UNDO/SYNC kind returns an id. The
  raise is a flag on the result; how the draw thread reacts to it is left out.
- Short reads from `recv` are not modelled: `_receive` and `_read_data` are
  taken to get the whole header and the whole body. A short header makes
  `unpack` raise, which the loop logs; a short body is passed on as it is.
- Canvas.DrawPing: sleeping, the refresh and the undo are commands in the
  trace; their effect on the history is not modelled.

## Findings

| source | as written | input that shows it | evidently intended | confidence | as-written member | corrected member |
|---|---|---|---|---|---|---|
| pypaint/connection.py:79-80 | the guard `i < CONNECT_ATTEMPTS` inside `for i in range(CONNECT_ATTEMPTS)` always holds, so the loop also sleeps after the final failed attempt | three refused attempts: sleeps of 1, 2 and 3 seconds, the last one before giving up | skip the sleep after the last attempt (`i < CONNECT_ATTEMPTS - 1`), sleeping 1 and 2 seconds | medium, not executed | Connection.AllAttemptsFail | Connection.ConnectToPeerIntended |
