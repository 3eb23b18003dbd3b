# Chess relay and engine adapters — a Dafny model

This project models the core of a small online chess application in Dafny:

- **The `/game` room directory of the Socket.IO relay server** (`server/socket.ts`).
  - The server keeps one process-wide record from room id to the ordered list of socket ids seated in the room.
  - `joinRoom` seats at most two sockets, gives the first white and the second black, and announces `startGame` to the room once two are seated.
  - `move` relays a payload to the other sockets of a room.
  - `disconnect` removes the socket from every room and deletes the rooms left empty.
  - `initSocket` attaches the server at most once.
- **The two browser-side adapters to a UCI chess engine** (`utils/engine.ts` and `utils/engine-move.ts`).
  - They post `uci` on construction.
  - On `uciok` they answer with the analysis handshake; on `readyok` they start a timed search.
  - They remember the last `bestmove` word, and on a new one they either play it on the board (black's turn only) or draw it as a pale blue arrow.
  - `setOption` and `sendPosition` render the commands as text lines.

The handlers are modelled as pure functions: the state before, the incoming event or engine line, and the state after together with what was emitted or posted. Emitted Socket.IO events carry the set of socket ids they reach. The commands posted to the engine are values of a `Command` datatype, with `Render` giving the exact text line posted.

Modules, one per file:

- `Common` (`common.dfy`): `Option` and the two colors.
- `Text` (`text.dfy`): JavaScript `split(' ')` and joining with one space, with the laws that make them inverse; `slice`, characterised character by character; and the decimal digits the model spells a search budget with.
- `Gateway` (`gateway.dfy`): the once-only guard of `initSocket`.
- `GameRooms` (`game_rooms.dfy`): the `/game` directory and its three handlers, following the server's branches and seating; the representation choices are listed under Left out.
- `SeatedRooms` (`seated_rooms.dfy`): the same directory with the seat color recorded. It is the corrected seating described under Findings.
- `EngineProtocol` (`engine_protocol.dfy`):
  - the UCI commands and their text form;
  - a word-by-word reading of those lines, proved to be the inverse of the rendering;
  - the handshake and `sendPosition`;
  - the engine state and the `bestmove` word extraction.
- `Engine` (`engine.dfy`, for utils/engine.ts) and `EngineMove` (`engine_move.dfy`, for utils/engine-move.ts): construction and the two `handleEngineStdout` handlers.
- `EnginesCompare` (`engines_compare.dfy`): how the two handlers relate.

## Model

| member | source | states |
|---|---|---|
| Gateway.InitSocket | server/socket.ts:13-21 | A call creates a server exactly when `io` is unset and the request exposes the host server. An attached handle is never replaced. Without a host server nothing changes. |
| Gateway.AtMostOneServer | server/socket.ts:9-21 | Over any number of requests at most one server is created. Exactly one is created when the handle starts unset and some request exposes the host server. The handle ends set exactly when it started set or such a request came. |
| GameRooms.JoinRoom | server/socket.ts:38-59 | A room with two or more sockets answers `roomFull` to the requester alone and changes nothing. Otherwise the socket is appended, other rooms are unchanged, and the joiner is told its color from its position (first white, second black). `startGame` goes to the whole room, the joiner included, exactly when the room held one socket before. Nothing else is emitted: one record, or two when the game starts. The one-or-two-sockets invariant is kept. |
| GameRooms.RelayMove | server/socket.ts:61-64 | The directory is untouched. One `opponentMove` with the payload unchanged goes to exactly the room's other sockets, the sender excluded; an unknown room gives an empty recipient set. |
| GameRooms.Without | server/socket.ts:68 | The filtered list holds exactly the entries different from the socket, is no longer than the original, and is empty exactly when every entry was the socket. |
| GameRooms.WithoutCounts | server/socket.ts:68 | Filtering drops every copy of the socket and keeps every other id as often as it occurred. |
| GameRooms.WithoutKeepsOrder | server/socket.ts:68 | The filtered list is a subsequence of the original: the remaining ids keep their order. |
| GameRooms.Disconnect | server/socket.ts:66-72 | Nothing is emitted. No remaining room lists the socket or is empty. A room survives exactly when it had an entry other than the socket. The one-or-two invariant is kept. |
| GameRooms.DisconnectCounts | server/socket.ts:67-70 | In every surviving room each other socket is listed as often as before. |
| GameRooms.DisconnectKeepsOrder | server/socket.ts:67-70 | In every surviving room the remaining sockets keep their join order. |
| GameRooms.DisconnectScan | server/socket.ts:67-70 | The room-by-room loop over the record, filtering and deleting in place, ends with the same directory as the one-step definition `Disconnect`. |
| GameRooms.Handle | server/socket.ts:38-72 | Each handler keeps the invariant that every listed room holds one or two sockets. |
| GameRooms.Run | server/socket.ts:35-73 | Handling any sequence of events one at a time keeps the same invariant. |
| GameRooms.ReachableValid | server/socket.ts:11 | From the empty record the server starts with, every room holds one or two sockets after any sequence of events. |
| GameRooms.SameSocketBothSeats | server/socket.ts:40-56 | Nothing stops one socket joining a fresh room twice. It is then told white, then black, and `startGame` reaches only itself. |
| GameRooms.JoinLeaveScenario | server/socket.ts:38-72 | In room r1: c1 joins (white), c2 joins (black, game starts), c3 is refused, c1 leaves, c4 joins. c4 is told black and the game restarts with c2 and c4. |
| SeatedRooms.JoinSeated | server/socket.ts:38-59 | Corrected join. A full room is refused as before. Otherwise the newcomer is appended with, and told, a color none of the seated sockets holds. `startGame` fires exactly when one socket was seated. Nothing else is emitted: one record, or two when the game starts. Distinct colors per room are kept. |
| SeatedRooms.JoinAgrees | server/socket.ts:40-48 | The corrected join keeps exactly the server's directory of ids. |
| SeatedRooms.JoinEmitsAgree | server/socket.ts:51-56 | The corrected join emits what the server emits except for the color in the first record. That color agrees too when the room is empty or its one socket is white. |
| SeatedRooms.WithoutSeat | server/socket.ts:68 | Filtering seats gives the server's filtered id list. Every kept seat was in the room, and no kept seat is the socket. |
| SeatedRooms.DisconnectSeated | server/socket.ts:66-72 | Corrected disconnect. Nothing is emitted. Remaining seats keep their colors, and the socket is gone. Distinct colors per room are kept. |
| SeatedRooms.DisconnectAgrees | server/socket.ts:66-72 | The corrected disconnect keeps exactly the server's directory of ids. |
| SeatedRooms.RelaySeated | server/socket.ts:61-64 | Relaying ignores seats: same recipients, same payload, directory untouched. |
| SeatedRooms.RunAgrees | server/socket.ts:35-73 | Along any event sequence the corrected directory, colors forgotten, is the server's directory. |
| SeatedRooms.ReachableSeatsDistinct | server/socket.ts:38-72 | From the empty directory, no two sockets of a room ever hold the same color, and the rooms list exactly the server's ids. |
| SeatedRooms.RepairedLateJoin | server/socket.ts:51-52 | The scenario above run through the corrected handlers: c1 joins r1 (white), c2 joins (black), c3 is refused, c1 leaves and only c2 (black) remains, then c4 joins and is told white. |
| Text.Split | utils/engine.ts:37 | `split(' ')` always gives at least one piece (`''.split(' ')` is `['']`), so the first word `uciString[0]` always exists. What the pieces are is stated by SplitPiecesSpaceFree, JoinSplit and SplitJoin, which together determine the split. |
| Text.SplitPiecesSpaceFree | utils/engine.ts:37 | No piece of `split(' ')` contains a space. |
| Text.SplitPiecesFrom | utils/engine.ts:37 | Every character of every piece occurs in the split string. |
| Text.JoinSplit | utils/engine.ts:37 | Joining the pieces with single spaces gives the line back. |
| Text.SplitJoin | utils/engine.ts:37 | Splitting the join of a non-empty list of space-free words gives the list back. |
| Text.SplitConcat | utils/engine.ts:37 | Splitting `a + " " + b` gives the pieces of `a` followed by the pieces of `b`. |
| Text.FirstPieceIs | utils/engine.ts:39 | The first piece equals a space-free word `k` exactly when the line is `k` or starts with `k` and a space. |
| Text.Slice | utils/engine.ts:57-58 | `slice(start, end)` clamps both indices to the length and returns the characters in between, or nothing for a reversed range. |
| Text.SliceSquares | utils/engine-move.ts:58-59 | For a move of four or more characters, `slice(0, 2)` and `slice(2, 4)` are two-character squares that together are its first four characters. |
| EngineProtocol.Render | utils/engine.ts:43-71 | The text line of each posted command. Its properties are stated by RenderRoundTrip (every well-formed line reads back as its command), RenderFirstWord (the first word is the command's keyword), and HandshakeText, SearchText and PositionText (the exact lines the program posts). |
| EngineProtocol.SetOptionRoundTrip | utils/engine.ts:65-67 | A `setoption name … value …` line whose name has no word `value` reads back as the same name and value. An empty name reads back too, as the empty word between `name` and `value`. |
| EngineProtocol.PositionRoundTrip | utils/engine.ts:69-70 | A `position startpos moves …` line reads back as the same move list. |
| EngineProtocol.GoRoundTrip | utils/engine.ts:71 | A `go movetime <n>` line reads back as the same number of milliseconds. |
| EngineProtocol.RenderRoundTrip | utils/engine-move.ts:65-72 | Every well-formed command reads back from its text line as itself. |
| EngineProtocol.SendPosition | utils/engine.ts:69-72 | `sendPosition` posts two lines: the start position with the moves, then a 2000 ms search. |
| EngineProtocol.Handshake | utils/engine.ts:39-45 | On `uciok` four commands are posted, ending with `isready`. Every one is well-formed, so by RenderRoundTrip each posted line reads back as its command. |
| EngineProtocol.RenderFirstWord | utils/engine.ts:65-71 | The first word of every posted line, `setoption name … value …` and `position startpos moves …` included, is the command's own keyword. |
| EngineProtocol.HandshakeText | utils/engine.ts:39-45 | The handshake lines are `setoption name UCI_AnalyseMode value true`, `setoption name Analysis Contempt value Off`, `ucinewgame` and `isready`, in that order. |
| EngineProtocol.SearchText | utils/engine.ts:47-49 | The searches posted on `readyok` are the lines `go movetime 1500` and `go movetime 1000`. |
| EngineProtocol.PositionText | utils/engine-move.ts:69-72 | `sendPosition` posts `position startpos moves <moves>` and `go movetime 2000`. |
| EngineProtocol.BestMoveWord | utils/engine.ts:51 | A best-move word is found only on a line starting with the word `bestmove`. It is non-empty, has no space, and follows `bestmove ` directly. |
| EngineProtocol.BestMoveWordOf | utils/engine-move.ts:55 | The line `bestmove <x>`, alone or followed by a space and more, carries the word `x`. |
| EngineProtocol.BestMoveWordMissing | utils/engine-move.ts:55 | `bestmove` alone, `bestmove` and one space with nothing after it, or `bestmove` followed by two spaces carries no word. |
| Engine.StartPostsUci | utils/engine.ts:7-24 | Construction posts exactly the line `uci`, which reads back as the `uci` command, leaves the best move unset and does nothing on the board. |
| Engine.HandleLine | utils/engine.ts:36-63 | `uciok` posts the handshake; `readyok` posts a 1500 ms search; other lines post nothing. A changed state holds a non-empty best move that follows `bestmove ` in the line. The board moves exactly when the state changed on black's turn, from `slice(0,2)` to `slice(2,4)` of the new best move. |
| Engine.BestMoveAdopted | utils/engine.ts:51-60 | A new best move is stored, nothing is posted, and on black's turn (only then) its two squares are played. |
| Engine.FirstBestMoveMoves | utils/engine.ts:7 | With the best move unset at construction, the first valid `bestmove` line on black's turn moves a piece. |
| Engine.BestMoveRepeated | utils/engine.ts:52 | The stored best move again changes nothing and moves nothing. |
| Engine.BestMoveMissing | utils/engine.ts:51 | A `bestmove` line without a non-empty second word is ignored: `bestmove` alone, with one trailing space, or followed by two spaces. |
| Engine.OtherLineIgnored | utils/engine.ts:36-63 | A line starting with none of the three words is ignored. |
| Engine.HandleLineIdempotent | utils/engine.ts:51-53 | Handling a line a second time keeps the state, posts the same commands and moves nothing, whatever the turn. |
| EngineMove.StartPostsUci | utils/engine-move.ts:6-23 | Construction posts exactly the line `uci`, which reads back as the `uci` command, leaves the best move unset and does nothing on the board. |
| EngineMove.HandleLine | utils/engine-move.ts:38-63 | `uciok` posts the handshake and returns; `readyok` posts a 1000 ms search and returns; other lines post nothing. The board gets an arrow exactly when the state changed, with the `paleBlue` brush, from `slice(0,2)` to `slice(2,4)` of the new best move. |
| EngineMove.BestMoveDrawn | utils/engine-move.ts:55-61 | A new best move is stored and drawn with no turn check. |
| EngineMove.FirstBestMoveDraws | utils/engine-move.ts:6 | With the best move never assigned at construction, the first valid `bestmove` line draws. |
| EngineMove.BestMoveRepeated | utils/engine-move.ts:56 | The stored best move again draws nothing. |
| EngineMove.BestMoveMissing | utils/engine-move.ts:55 | A `bestmove` line without a non-empty second word is ignored: `bestmove` alone, with one trailing space, or followed by two spaces. |
| EngineMove.OtherLineIgnored | utils/engine-move.ts:38-63 | A line starting with none of the three words is ignored. |
| EngineMove.HandleLineIdempotent | utils/engine-move.ts:55-61 | Handling a line a second time keeps the state, posts the same commands and draws nothing. |
| EnginesCompare.HandlersAgree | utils/engine-move.ts:38-63 | The two handlers track the best move identically. They post the same commands except after `readyok` (1500 ms against 1000 ms). The playing engine moves exactly when the advising one draws and it is black's turn, between the same two squares. |

## Left out

- The `/chat` namespace (server/socket.ts:24-32): it is not part of the room directory.
- Console logging: it has no effect on state.
- The Socket.IO transport itself: `socket.join` and `to(room)` broadcasting are taken to reach exactly the ids listed for the room.
- Delivery of one socket's events in order: modelled as handlers applied one at a time.
- The per-socket default room named after the socket id. A room id equal to some socket id would also reach that socket; this is not modelled.
- Prototype keys of the JavaScript `rooms` object: every room id is treated as absent until joined.
  - `constructor` and similar ids would read inherited properties.
  - `__proto__` would not be stored as a key.
- Malformed client payloads. Destructuring a `move` payload throws only for `null` or `undefined`; any other primitive payload gives undefined fields. A non-string room id is coerced to a string only as a key of `rooms`; `socket.join(roomId)` and `to(roomId)` get the raw value, so `5` and `"5"` share a directory entry but not a Socket.IO room. Room ids are modelled as strings, so this split is not modelled.
- GameRooms.RelayMove: the `move` payload is whatever JSON value the client sent, but the model types it as a string. The handler only forwards it unchanged, which the contract states for every string.
- Text.Slice: JavaScript `slice` counts UTF-16 code units, while a Dafny string is a sequence of Unicode characters. The two differ only on characters outside the Basic Multilingual Plane; UCI output is ASCII.
- The engine worker, wasm detection and the error listeners. The worker is the environment: posted lines are returned as `Command` values, and incoming lines are parameters.
- The board. Its turn color is a parameter of `Engine.HandleLine`, and `move` and `drawMove` are returned as `BoardAction` values without checking chess legality.
- `engineName`: it is declared in both classes and never used.
- `composables/useStockfish.ts`, `server/api/socket.ts` and `nuxt.config.ts` are not part of this model.
- The engine side of UCI. How Stockfish itself reads these lines is not part of this model. `Parse` is an independent reading that single spaces separate the words and that the `value` keyword ends the option name; it is the reading that the rendering is proved inverse to.
- EngineProtocol.RenderRoundTrip: holds only for well-formed commands. An option name that contains the word `value` cannot be read back, because the reading ends the name at the first such word; the program never posts such a name.
- `bestMove` as `null` in `engine.ts` and as never assigned (`undefined`) in `engine-move.ts` are both modelled as `None`: each is unequal to every string, which is all the handlers compare.
- Seating follows the code, not the evident intent. After a full room's first socket leaves, the next joiner is seated second and told black instead of taking the freed white seat (GameRooms.JoinLeaveScenario). The property that no two sockets of a room share a color is proved only for the corrected seating in `SeatedRooms` (see Findings).

## Findings

| source | as written | input that shows it | evidently intended | confidence | as-written member | corrected member |
|---|---|---|---|---|---|---|
| server/socket.ts:51-52 | The color comes from the list length after the push: a second entry is always black, whatever color the remaining socket holds. | In room r1: c1 joins (white), c2 joins (black), c1 disconnects, c4 joins. c4 is told black while c2 is still black, and `startGame` goes to both. | The newcomer takes the color the seated socket does not hold, so the two players of a room always have different colors. | medium; not executed | GameRooms.JoinLeaveScenario | SeatedRooms.JoinSeated |
