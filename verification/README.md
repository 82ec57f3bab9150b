# simp: the Game of Life, the event-stream bridges, the relay broker and the static-file wrapper

A Dafny model of the sequential logic of the `simp` Django demo:

- **The Game of Life** of `core/views.py`: the row-major `size` x `size` board, the
  four edge tests, the neighbour lookup by intersecting direction lists, `process_cell`
  with its birth and survival rules, the board `ConwayView.get` builds, and the tick of
  `conway_see_view`, which computes every new value from the old generation before it
  writes any cell and then emits one Datastar patch block (modules `Grid`, `Life`).
- **The Server-Sent-Events bridges** of `core/views.py`: `lorem_event_stream`
  (module `Lorem`, with Python's `str.split()`), and the four receive loops
  `ChatEventView.event_stream`, `ZmqIpcStreamView.stream_events`,
  `ValKeyIpcStreamView.event_stream` and `valkey_stream`'s `event_stream`
  (module `Bridges`). They share one receive loop (module `Sse`): each input either
  emits one event, is skipped, stops the loop on the bridge's sentinel, or raises.
  A bridge is a pure function from the finite sequence of inputs received so far to the
  chunks written, the number of inputs read, and whether the stream is still open,
  finished after its sentinel, or ended by an exception.
- **The relay loop** `proxy` of `core/management/commands/zmqbroker.py` (module
  `Broker`): both sockets become FIFO queues of multipart messages, and one loop
  iteration is a step that moves one whole message.
- **`PathSendApp`** of `config/asgi.py` (module `PathSend`): dispatch on the scope
  type, the static prefix test, the finder lookup with the prefix removed, and the
  200/404 responses, as the list of ASGI messages it sends.

Supporting modules: `Wrappers` (Option), `Seqs` (sequences without repetitions),
`Decimal` (`str(n)` and reading it back) and `Utf8` (strict `str.encode()` and
`bytes.decode()`).

Parameters stand for everything the code reads from outside: the random seeding of the
board (`seeds`), the lorem paragraphs, the task counts and timestamps that arrive with
each input, `settings.STATIC_URL`, `finders.find`, `mimetypes.guess_type` and
`os.path.getsize` (a `Files` record of functions).

## Model

| member | source | states |
|---|---|---|
| Grid.EdgePredicates | core/views.py:585-599 | On a cell of the board, `is_top_row`, `is_bottom_row`, `is_left_row` and `is_right_row` hold exactly on row 0, the last row, column 0 and the last column. |
| Grid.AvailableExact | core/views.py:603-623 | A direction survives the intersections with the edge lists exactly when one step in it stays on the board. |
| Grid.OffsetMoves | core/views.py:625-642 | The index each direction branch appends is the cell one row and/or column away in that direction, and it is adjacent to the cell. |
| Grid.NeighbourIndexesExact | core/views.py:602-654 | The neighbour set is exactly the set of board cells at row and column distance at most 1, other than the cell: all in `[0, size*size)`, no wrap-around. |
| Grid.OffsetInjective | core/views.py:625-642 | Different surviving directions give different indexes, so the returned list has no duplicates. |
| Grid.NeighbourListEnumerates | core/views.py:625-654 | The list in the order of `available_neigbors` has no repetitions, holds exactly the neighbour set, and has one entry per surviving direction. |
| Grid.RestrictCard | core/views.py:608-623 | The intersections keep (3 - top - bottom) * (3 - left - right) - 1 directions. |
| Grid.NeighbourCount | core/views.py:602-654 | A cell has one neighbour per board cell of the 3 x 3 block around it, less itself. |
| Grid.NeighbourCounts | core/views.py:608-623 | A 1 x 1 board gives no neighbours; corners get 3, other edge cells 5, interior cells 8. |
| Life.ConsistentClass | core/views.py:750-756 | In a consistent cell the class is "alive" exactly when the value is 1. |
| Life.InitBoard | core/views.py:741-772 | The built board is well formed (cell i at position i, consistent, its neighbour list enumerating its neighbour set once each) and cell i is live exactly when its seed says so. |
| Life.WellFormedLinked | core/views.py:766-771 | Every stored neighbour of a well-formed board is a cell of the board. |
| Life.ProcessCell | core/views.py:664-683 | The four docstring rules and the fallback `(0, "")`; the result is consistent; it is live exactly under rule B3/S23. |
| Life.SumCountsLive | core/views.py:671-671 | Summing the values of distinct 0/1 cells counts the live ones. |
| Life.NeighbourSumIsLiveAround | core/views.py:701-706 | On a well-formed board the sum `process_cell` takes is the number of live adjacent cells, whatever the order of the neighbour list. |
| Life.CollectChanges | core/views.py:701-707 | The first loop records, for every index in order, the new value and class computed from the old generation. |
| Life.ApplyChanges | core/views.py:713-727 | The second loop writes every recorded value and class, leaves the neighbour lists alone, and emits one element line per change in index order. |
| Life.Tick | core/views.py:697-727 | A tick produces exactly the generation computed pointwise from the old one, and emits its patch block: header, one element line per cell in index order with the new class, blank line. |
| Life.NextGenerationIsLife | core/views.py:697-721 | A tick is one step of Conway's Game of Life without wrap-around, and the board stays well formed (so class "alive" iff value 1). |
| Life.NextGenerationWellFormed | core/views.py:713-721 | A tick keeps the board well formed: positions, consistent cells and neighbour lists are preserved. |
| Life.GenerationStep | core/views.py:696-721 | The board after k + 1 ticks is one tick from the board after k ticks. |
| Life.GenerationsWellFormed | core/views.py:696-727 | Every generation the loop reaches is still a well-formed board. |
| Life.ConwayStream | core/views.py:686-733 | The stream starts with `connected`; it fails, with `disconnected` right after `connected`, exactly when no board was built, the grid has cells and the loop ran; with a board it never fails and keeps `CONWAY_GRID_SIZE ** 2` cells. |
| Life.ConwayStreamStep | core/views.py:696-727 | One more iteration of the loop appends the patch block of the next generation of the board it holds, and then holds that generation. |
| Life.ConwayStreamPrefix | core/views.py:696-729 | The stream only grows: what was sent after t1 iterations begins what is sent after any t2 >= t1. |
| Life.ConwayViewStream | core/views.py:686-772 | On a board the page view builds for a `CONWAY_GRID_SIZE` x `CONWAY_GRID_SIZE` grid the stream never fails and every generation stays well formed; before any page view, the first tick fails. |
| Lorem.SplitKeepsText | core/views.py:77-77 | `paragraph.split()` drops exactly the whitespace: its words hold every other character, in order. |
| Lorem.SplitJoin | core/views.py:77-77 | Splitting words joined by single spaces gives the words back. |
| Lorem.ParagraphEventsAt | core/views.py:79-82 | The word at position k of a paragraph is sent as `event: lorem`, `id: k`, `data: word`. |
| Lorem.BodyAppend | core/views.py:76-82 | The events of a paragraph do not depend on the paragraphs before it: ids restart at 0. |
| Lorem.OneParagraph | core/views.py:73-87 | One paragraph gives 3 chunks per word with ids 0, 1, 2, ... and then the `end` event. |
| Lorem.ParagraphsInOrder | core/views.py:76-87 | Paragraphs are sent in order and the stream closes with `end`. |
| Sse.Drive | core/views.py:296-308 | The loop reads inputs until the first that stops or raises, and reads all of them when none does. |
| Sse.DriveAppend | core/views.py:296-308 | Feeding inputs in two batches gives the same stream as feeding them at once. |
| Sse.DriveHalted | core/views.py:300-302 | Once the sentinel is read, later inputs are never read. |
| Sse.DriveSame | core/views.py:296-308 | Inputs the loop treats alike position by position give the same stream. |
| Sse.ServePairs | core/views.py:290-311 | With two-chunk events and no skipped inputs: header, one pair per event in arrival order, trailer after the sentinel. |
| Sse.ServeCount | core/views.py:290-311 | A chunk only the trailer holds appears only after the sentinel, as often as the trailer holds it. |
| Bridges.ZmqStream | core/views.py:290-311 | `connected` first; never fails; finished exactly when a "break" arrived, right after the first one. |
| Bridges.ZmqEvents | core/views.py:296-311 | One `ping` per timeout and one `current_time` per other message, in order, then `disconnected` after "break". |
| Bridges.ZmqDisconnectsOnce | core/views.py:300-311 | Exactly one `disconnected` event after "break" and none before. |
| Bridges.ZmqPayloadIgnored | core/views.py:298-305 | The payload of a non-"break" message does not affect the stream. |
| Bridges.ZmqAsWrittenDropsMessages | core/views.py:296-308 | As written, the loop raises before reading anything, so whatever is published only `connected` is sent; as intended, a first ordinary message is read and a `current_time` event follows `connected`. |
| Bridges.ZmqAsWrittenHello | core/views.py:298-306 | With one published "hello": as written, `connected` and then the error; as intended, `connected`, one `current_time` event, and the stream still open. |
| Bridges.ChatStream | core/views.py:207-225 | `connected` first; finished exactly when a notification with payload "stop" arrived, right after the first one. |
| Bridges.ChatEvents | core/views.py:216-225 | One `message` event per notification before "stop", in order, then `close`. |
| Bridges.ChatDataLine | core/views.py:220-222 | The data line of a `message` event reads back as the task count. |
| Bridges.ChatClosesOnce | core/views.py:216-225 | Exactly one `close` event after "stop" and none before. |
| Bridges.GlideStream | core/views.py:394-412 | `connected` first; never fails; finished exactly when a message with the bytes of "break" arrived. |
| Bridges.BreakBytes | core/views.py:495-497 | The bytes of "break" are the only ones that decode to "break". |
| Bridges.GlideIsZmq | core/views.py:394-408 | On UTF-8 payloads the Glide bridge writes the ZeroMQ bridge's stream for the same messages. |
| Bridges.ValkeyStream | core/views.py:481-506 | `connected` first; a failure comes from a payload that is not UTF-8; the stop comes from a payload decoding to "break". |
| Bridges.ValkeyEmptyPollIgnored | core/views.py:490-493 | An empty poll changes nothing the client sees. |
| Bridges.ValkeyEvents | core/views.py:489-506 | One `current_time` event per message, carrying that message's timestamp, in order, then `disconnected` after "break". |
| Bridges.ValkeyFailureHasNoTrailer | core/views.py:495-506 | A payload that is not UTF-8 ends the stream without a `disconnected` event. |
| Broker.Step | core/management/commands/zmqbroker.py:13-25 | No step while nothing is readable; the frontend is served first when readable; otherwise the backend; one whole message moves to the other socket, the other direction untouched. |
| Broker.StepConserves | core/management/commands/zmqbroker.py:17-25 | Per direction, delivered-then-waiting messages stay the same sequence (FIFO, no loss, no duplicate) and one message leaves the queues. |
| Broker.FrontendFirst | core/management/commands/zmqbroker.py:17-25 | While publisher messages wait, backend messages stay queued and the first k iterations relay the first k publisher messages. |
| Broker.Relay | core/management/commands/zmqbroker.py:13-25 | Run until `poll` would block, every waiting message has been relayed to the other side in arrival order, one step per message. |
| PathSend.Handle | config/asgi.py:99-111 | "http" goes to the HTTP handler, "websocket" is passed through, any other type raises `Unhandled ASGI scope <type>`. |
| PathSend.HandleHttp | config/asgi.py:39-52 | A path outside the static prefix is passed to the inner app unchanged; nothing raises. |
| PathSend.RemovePrefix | config/asgi.py:54-54 | The lookup key is the path with one leading prefix removed. |
| PathSend.ContentType | config/asgi.py:56-60 | The guessed type when it is non-empty, else "text/plain". |
| PathSend.FileHeadersReadBack | config/asgi.py:64-73 | The headers read back as the content type, the file size in decimal, and `PathSend`. |
| PathSend.StaticResponse | config/asgi.py:53-97 | Under the prefix exactly two messages: a 200 start and a pathsend of the found file, or a 404 start with text/plain and the final body "404 Not Found". |
| Decimal.ParseShow | config/asgi.py:70-70 | The decimal text of a number reads back as that number. |
| Decimal.ShowParse | core/views.py:80-80 | A canonical digit string is the text of the number it denotes. |
| Utf8.DecodeEncode | config/asgi.py:69-70 | Every string survives `encode()` and a strict `decode()`. |
| Utf8.EncodeDecode | core/views.py:495-495 | Bytes that decode are the encoding of what they decode to. |

## Left out

- The I/O around the loops: sockets, the database pool, the Valkey and Glide clients,
  the Ollama client, `asyncio` scheduling and sleeps. Each bridge reads a finite
  sequence of inputs; the connection set-up and `client.close()` do not change what is
  sent.
- `llm_event_stream` (Ollama), the task counter views, the datastar demo views, the
  bucket view, forms, ORM models, templates and socket.io: outside this model.
- The ZeroMQ subscriber of core/ipc.py (its poller and sockets): the ZeroMQ bridge reads
  an abstract outcome, a message or a TimeoutError; `ZmqStreamAsWritten` records what the
  call as written does: it fails before reading any input.
- Grid.NeighbourListEnumerates: the source walks a Python `set`, whose order depends on
  string hashing; the model fixes the order of `available_neigbors`, and the Life lemmas
  only assume that a stored list holds each neighbour exactly once, in any order.
- Randomness, clocks and counters: the board seeds, `datetime.now().isoformat()` and
  `len(asyncio.all_tasks())` arrive as inputs; the timing print of the tick is left out.
- The board is one immutable sequence. The source keeps a global dictionary shared by
  every stream and rebuilt by every page view; concurrent rebuilds and several streams
  ticking the same board are not modelled.
- Life.ConwayStream: models a bounded number of ticks; the loop of the source never ends
  by itself.
- Life.ConwayStream: the only failure modelled is the missing board; any other exception
  inside the loop is not. The board is required to hold `CONWAY_GRID_SIZE ** 2` cells,
  as every board the page view builds does; a shorter board would raise inside the loop.
- Broker.Step: readiness is derived from non-empty queues; the `print` calls, socket
  binding and the XPUB/XSUB subscription semantics inside libzmq are not modelled.
- PathSend.Handle: `receive` and `send` are not values of the model; delegation is the
  scope handed on unchanged.
- The Server-Sent-Events wire format is written out chunk by chunk; no parser of
  section 9.2.6 of the WHATWG HTML Living Standard is modelled.

## Findings

| source | as written | input that shows it | evidently intended | confidence | as-written member | corrected member |
|---|---|---|---|---|---|---|
| core/views.py:298-298 | `await ipc.subscribe()` awaits the object the async generator `Subscriber.__call__` (core/ipc.py:32-36) returns, which raises TypeError in the first iteration, before anything is read; only TimeoutError is caught, so the stream ends after `connected` | none needed: nothing published at all; with one published message "hello" the intended `current_time` event is missing | one `current_time` event per message, `ping` on timeout, `disconnected` after "break" | high, not executed | Bridges.ZmqAsWrittenDropsMessages | Bridges.ZmqEvents |
