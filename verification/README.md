# Penkiolika — a verified model of the Fifteen puzzle engine and its HTTP handler

Penkiolika is a Fifteen puzzle (15-puzzle) served over HTTP. This project
models two parts of it in Dafny.

The board engine, `Penkiolika`:
- The board is sixteen `int` cells in row-major 4x4 order, with 0 as the empty cell.
- A game starts in the final state `[1, ..., 15, 0]`, or from a caller's array that must have 16 cells.
- Four moves slide the empty cell up, down, left or right. Each move finds the empty cell with a linear scan, tests a boundary predicate on its index, and swaps it with the neighbour when the test passes.
- `shuffle(times)` keeps drawing random directions until `times` moves have succeeded.
- `isFinal` and `equals` compare cells one by one.

The request handler, `ServerHandler`:
- It keeps a map from game id to game, and a counter `lastId` that issues ids.
- It answers requests under `/penkiolika`:
  - `POST game` creates a shuffled game (201);
  - `GET game/<id>` shows a game (200 or 404);
  - `PATCH game/<id>` with a JSON body `{"move": ...}` moves in a game (200, 400, 404, 409 or 415);
  - `DELETE game/<id>` removes a game (200 or 404).
- Any other method or path under the base answers 400. A path outside the base answers 500.

The modules follow the program:

- `Board` (board.dfy) describes the board as a value.
  - It has one function per engine operation: `EmptyIndex`, `Move`, `ShuffleRun` and others.
  - It proves the properties of these functions, including:
    - a move followed by the opposite move restores the board;
    - moves only permute the cells;
    - every board reachable from the final board is solvable;
    - parity: an odd number of moves never returns to the final board, so the default shuffle (101 moves) never yields a finished game.
- `Game` (game.dfy) is class `Penkiolika`.
  - Its cells are an `array<int>` that the moves update in place.
  - Every method is proved against the `Board` functions.
- `Routing` (routing.dfy) holds the pure parts of the dispatcher.
  - Java's `String.split("/")` is modelled with its dropping of trailing empty strings.
  - Also here: the pattern matcher `pathMatches`, the route a method and path select, and the move names.
- `Decimal` (decimal.dfy) holds game ids: the decimal text of the counter, and proof that different counters give different ids.
- `Server` (server.dfy) is class `ServerHandler`.
  - The registry is a `map<string, Penkiolika>` and a `nat` counter.
  - Each handler is a method returning a response value: a status and a payload, either the game view `{id, board, final}` or an error `{reason}`.
  - `Handle` states, for every route, the response and what the registry may change.
- `Wrappers` (wrappers.dfy) holds `Option` and `Result`.

Three inputs that the Java code reads from its environment are parameters here:
- The random directions of a shuffle are a sequence `draws`. Once `draws` is used up, the first legal direction in the order top, bottom, left, right is taken. This stands for "a random direction eventually turns out legal", and it keeps termination provable.
- A PATCH body comes already parsed, as `Body`:
  - its text: the body's lines joined with "\n", so a trailing line break is dropped and "\r\n" becomes "\n";
  - whether it was a JSON object;
  - whether its `move` is missing, a string, or a value the JSON library refuses to read as a string, together with the library's message.
- The request method and path come as strings.

## Model

| member | source | states |
|---|---|---|
| Board.FinalBoardCells | src/lt/andrikonis/penkiolika/Penkiolika.java:40 | The final board has 16 cells: tile k+1 at index k for k < 15, and the empty cell at index 15. |
| Board.FinalBoardHasOneEmptyCell | src/lt/andrikonis/penkiolika/Penkiolika.java:40 | The final board has exactly one empty cell, and the scan finds it at index 15. |
| Board.JavaRem | src/lt/andrikonis/penkiolika/Penkiolika.java:156 | Java's truncating `%`: the result lies strictly between -m and m. It equals Dafny's `%` on a non-negative dividend, and equals -((-a) % m) on a negative one, so it is never positive there. Some integer q gives a == q * m + r, Java's division identity. |
| Board.EmptyIndex | src/lt/andrikonis/penkiolika/Penkiolika.java:185-192 | The index of the first empty cell, or -1 exactly when there is none. |
| Board.Swap | src/lt/andrikonis/penkiolika/Penkiolika.java:197-201 | Swapping exchanges the two cells, leaves every other cell as it was, and keeps the length and the multiset of cells. |
| Board.Move | src/lt/andrikonis/penkiolika/Penkiolika.java:175-182 | A move succeeds exactly when its boundary test holds on the empty index i. It then changes exactly cells i and NextIndex(d, i): the empty cell lands on the neighbour and the neighbour's tile on i, all other cells stay, and the multiset is kept. |
| Board.CanMove | src/lt/andrikonis/penkiolika/Penkiolika.java:135-167 | On every index of the board, the boundary test of a direction holds exactly when the neighbour one row and column step away lies on the 4x4 grid. |
| Board.NextIndex | src/lt/andrikonis/penkiolika/Penkiolika.java:135-167 | The neighbour index is i - 4, i + 4, i - 1 or i + 1 by direction. When the boundary test holds, it is a different cell on the board, one row or column step away. |
| Board.MissingEmptyCell | src/lt/andrikonis/penkiolika/Penkiolika.java:185-192 | With no empty cell the scan gives -1. The top test rejects -1, while bottom, left and right accept it, so those three would swap cell -1. |
| Board.SomeMovesAlwaysLegal | src/lt/andrikonis/penkiolika/Penkiolika.java:135-167 | From every cell one vertical and one horizontal move are legal. |
| Board.EmptyIndexOfUnique | src/lt/andrikonis/penkiolika/Penkiolika.java:185-192 | On a board with a single empty cell, the scan finds that cell wherever it is. |
| Board.MoveKeepsZeroUnique | src/lt/andrikonis/penkiolika/Penkiolika.java:175-182 | A legal move keeps exactly one empty cell and puts it at the computed next index. |
| Board.OppositeLeadsBack | src/lt/andrikonis/penkiolika/Penkiolika.java:135-167 | After a legal step, the opposite step is legal and returns to the start index. |
| Board.MoveThenOpposite | src/lt/andrikonis/penkiolika/Penkiolika.java:135-167 | On a board with one empty cell, a legal move followed by the opposite move is legal and restores the board. |
| Board.ApplyAllPermutes | src/lt/andrikonis/penkiolika/Penkiolika.java:197-201 | Any sequence of legal moves only rearranges the cells. |
| Board.ReachableIsPermutation | src/lt/andrikonis/penkiolika/Penkiolika.java:94-96 | A board reachable by legal moves holds the same cells as its start. |
| Board.ApplyAllAppend | src/lt/andrikonis/penkiolika/Penkiolika.java:102-117 | Applying two runs of moves one after the other equals applying their concatenation. |
| Board.UndoLeadsBack | src/lt/andrikonis/penkiolika/Penkiolika.java:94-96 | On a board with one empty cell, the reversed and turned-around moves lead back to where the moves started. |
| Board.ReachableFromFinalIsSolvable | src/lt/andrikonis/penkiolika/Penkiolika.java:94-96 | A board shuffled from the final state is always solvable: some legal moves lead it back to the final board. |
| Board.FirstLegal | src/lt/andrikonis/penkiolika/Penkiolika.java:102-113 | The fallback direction for the random draw is always legal. |
| Board.ShuffleRun | src/lt/andrikonis/penkiolika/Penkiolika.java:100-118 | The shuffle makes exactly max(times, 0) successful moves. Applying those moves to the start gives the result, which keeps the start's cells. |
| Board.StepFlipsParity | src/lt/andrikonis/penkiolika/Penkiolika.java:135-167 | Every legal step moves the empty cell to a square of the other chessboard colour. |
| Board.MoveFlipsParity | src/lt/andrikonis/penkiolika/Penkiolika.java:175-182 | Every legal move changes the colour of the empty cell's square. |
| Board.TrailParity | src/lt/andrikonis/penkiolika/Penkiolika.java:86-92 | Along a legal trail of n steps the colour flips n times. |
| Board.ApplyAllTrail | src/lt/andrikonis/penkiolika/Penkiolika.java:100-118 | Legal moves drag the single empty cell along a legal trail, ending where the trail ends. |
| Board.OddMovesLeaveFinal | src/lt/andrikonis/penkiolika/Penkiolika.java:86-92 | An odd number of legal moves from the final board never ends on the final board. |
| Board.DefaultShuffleOfFinal | src/lt/andrikonis/penkiolika/Penkiolika.java:82-84 | The default shuffle of the final board does four things: it permutes its cells, stays reachable from it, is solvable, and is never the final board (101 is odd). |
| Game.Penkiolika.constructor | src/lt/andrikonis/penkiolika/Penkiolika.java:52-54 | A new game holds a fresh array equal to the final board. |
| Game.Penkiolika.Copy | src/lt/andrikonis/penkiolika/Penkiolika.java:61-67 | A 16-cell array is copied into a fresh array, so the caller's later changes do not reach the game. |
| Game.Penkiolika.FromArray | src/lt/andrikonis/penkiolika/Penkiolika.java:61-67 | Construction fails with "Board size should equal to 16" exactly when the length is not 16. Otherwise the game holds a copy of the cells. |
| Game.Penkiolika.GetBoard | src/lt/andrikonis/penkiolika/Penkiolika.java:74-76 | Returns a fresh array equal to the cells and changes nothing. |
| Game.Penkiolika.IsFinal | src/lt/andrikonis/penkiolika/Penkiolika.java:125-127 | True exactly when the board has 16 cells holding 1..15 in order, followed by the empty cell. |
| Game.Penkiolika.Equals | src/lt/andrikonis/penkiolika/Penkiolika.java:210-217 | True exactly when the other game is non-null and has the same cells, element by element. |
| Game.Penkiolika.GetEmptyCellIndex | src/lt/andrikonis/penkiolika/Penkiolika.java:185-192 | The scan loop returns the first empty index, or -1 exactly when there is no empty cell. This agrees with Board.EmptyIndex. |
| Game.Penkiolika.SwapCells | src/lt/andrikonis/penkiolika/Penkiolika.java:197-201 | The new cells are the old ones with the two positions swapped. |
| Game.Penkiolika.MoveEmptyCell | src/lt/andrikonis/penkiolika/Penkiolika.java:175-182 | The result is the boundary test on the old empty index. When true, the two cells are swapped; otherwise nothing changes. The new cells are what Board.Move gives. |
| Game.Penkiolika.MoveTop | src/lt/andrikonis/penkiolika/Penkiolika.java:135-137 | Succeeds exactly when i >= 4 and then swaps i with i - 4; otherwise nothing changes. |
| Game.Penkiolika.MoveBottom | src/lt/andrikonis/penkiolika/Penkiolika.java:145-147 | Succeeds exactly when i <= 11 and then swaps i with i + 4; otherwise nothing changes. |
| Game.Penkiolika.MoveLeft | src/lt/andrikonis/penkiolika/Penkiolika.java:155-157 | Succeeds exactly when i % 4 != 0 and then swaps i with i - 1; otherwise nothing changes. |
| Game.Penkiolika.MoveRight | src/lt/andrikonis/penkiolika/Penkiolika.java:165-167 | Succeeds exactly when i % 4 != 3 and then swaps i with i + 1; otherwise nothing changes. |
| Game.Penkiolika.MoveIn | src/lt/andrikonis/penkiolika/Penkiolika.java:105-113 | The named move agrees with Board.Move. A failed move changes nothing, the cells stay a permutation, and an empty cell stays on the board. |
| Game.Penkiolika.Shuffle | src/lt/andrikonis/penkiolika/Penkiolika.java:100-118 | On a board with an empty cell, the loop ends on Board.ShuffleRun's board after exactly max(times, 0) successful moves that lead there from the start. times <= 0 changes nothing on any board, including one without an empty cell. |
| Game.Penkiolika.ShuffleRound | src/lt/andrikonis/penkiolika/Penkiolika.java:103-116 | One loop round keeps the shuffle's outcome and either counts down or consumes a draw. |
| Game.Penkiolika.ShuffleDefault | src/lt/andrikonis/penkiolika/Penkiolika.java:82-84 | Shuffles 101 times. From the final board the result is solvable and not final. |
| Routing.Fields | src/lt/andrikonis/penkiolika/ServerHandler.java:181 | Cutting at every '/' gives at least one field, none containing '/'. |
| Routing.JoinFields | src/lt/andrikonis/penkiolika/ServerHandler.java:181 | Joining the fields with '/' gives the string back. |
| Routing.FieldsJoin | src/lt/andrikonis/penkiolika/ServerHandler.java:181 | Cutting what was joined from slash-free fields gives the fields back. |
| Routing.DropTrailingEmpty | src/lt/andrikonis/penkiolika/ServerHandler.java:181 | The result is a prefix that ends in a non-empty string (or is empty); only empty strings were dropped. |
| Routing.JavaSplit | src/lt/andrikonis/penkiolika/ServerHandler.java:181 | Java's split on '/': a string without '/' comes back whole. Otherwise the result is a prefix of Fields(s), the cut at every '/', that does not end in an empty string, and every field it drops is empty. No element contains '/'. |
| Routing.SplitOfJoin | src/lt/andrikonis/penkiolika/ServerHandler.java:181 | Two or more slash-free fields ending in a non-empty one are split back exactly. |
| Routing.SplitExamples | src/lt/andrikonis/penkiolika/ServerHandler.java:181 | "" splits to [""], "/" to [], and both "/game/" and "/game" to ["", "game"]. |
| Routing.PathMatches | src/lt/andrikonis/penkiolika/ServerHandler.java:284-295 | True exactly when all three hold: there is one more segment than pattern entries; the first segment is empty; each pattern entry is a wildcard or equals the segment after it. |
| Routing.StartsWith | src/lt/andrikonis/penkiolika/ServerHandler.java:179 | Java's `startsWith`: true exactly when the prefix is no longer than the string and agrees with it character by character; then the string is the prefix followed by the rest. |
| Routing.Segments | src/lt/andrikonis/penkiolika/ServerHandler.java:179-181 | The path after the base is split as JavaSplit does: whole when it holds no '/', otherwise a prefix of its fields without a trailing empty one. No segment contains '/'. |
| Routing.RouteOf | src/lt/andrikonis/penkiolika/ServerHandler.java:176-206 | The wrong-path route is chosen exactly when the path does not start with "/penkiolika". A game route's id is non-empty and slash-free. |
| Routing.GameSegments | src/lt/andrikonis/penkiolika/ServerHandler.java:179-181 | A game's path lies under the base and splits to "", "game" and the id. |
| Routing.GameRoutes | src/lt/andrikonis/penkiolika/ServerHandler.java:182-198 | For every non-empty slash-free id, GET, PATCH and DELETE on the game's path reach that game with the id unchanged. POST there is unsupported. |
| Routing.NewGameSegments | src/lt/andrikonis/penkiolika/ServerHandler.java:179-181 | "/penkiolika/game" and "/penkiolika/game/" both split to "" and "game". |
| Routing.NewGameRoutes | src/lt/andrikonis/penkiolika/ServerHandler.java:182-185 | POST creates a game at "/penkiolika/game", with or without the trailing slash. GET there, whose id would be empty, is unsupported. |
| Routing.ParseMove | src/lt/andrikonis/penkiolika/ServerHandler.java:236-245 | The four accepted names each select exactly their direction. Any other name selects none. |
| Decimal.NatToString | src/lt/andrikonis/penkiolika/ServerHandler.java:210 | The id text is made of digits, at least one, with a leading '0' only for zero. |
| Decimal.ValueOfString | src/lt/andrikonis/penkiolika/ServerHandler.java:210 | Reading the id text back as a number gives the counter. |
| Decimal.DistinctIds | src/lt/andrikonis/penkiolika/ServerHandler.java:210 | Different counter values give different ids. |
| Server.GameView | src/lt/andrikonis/penkiolika/ServerHandler.java:300-308 | The game view carries the id and exactly the game's 16 cells. `final` holds exactly when those cells are the final board. |
| Server.NotFound | src/lt/andrikonis/penkiolika/ServerHandler.java:223 | 404 with the reason "Game with id=<id> not found": the id sits in the reason right after its 13-character lead. The GET, PATCH and DELETE handlers (lines 223, 251, 269) give the same answer. |
| Server.NotFoundNamesId | src/lt/andrikonis/penkiolika/ServerHandler.java:223 | Two 404 answers are equal only for the same id: the reason names the game. |
| Server.NotJson | src/lt/andrikonis/penkiolika/ServerHandler.java:195 | 415 with a reason made of the fixed 44-character lead, the body text, ". " and the library's message, each at its place. |
| Server.PatchResult | src/lt/andrikonis/penkiolika/ServerHandler.java:233-262 | A non-string move is the library's exception. Every other outcome is 200, 400, 404 or 409. A 200 comes from a known move, on an existing game, that Board.Move accepts, and shows the moved board. |
| Server.PatchStatuses | src/lt/andrikonis/penkiolika/ServerHandler.java:233-262 | In the order the checks are made: no move gives 400; an unknown name gives 400; then 404 exactly when the game is absent, 409 exactly when the move is illegal, and 200 exactly when it is legal. |
| Server.MoveCheckedBeforeLookup | src/lt/andrikonis/penkiolika/ServerHandler.java:234-246 | A missing, non-string or unknown move is answered the same whether or not the game exists. |
| Server.PatchThenOpposite | src/lt/andrikonis/penkiolika/ServerHandler.java:233-262 | After a successful move request, a request for the opposite move succeeds and shows the original board. |
| Server.ServerHandler.constructor | src/lt/andrikonis/penkiolika/ServerHandler.java:151-153 | A new handler has no games and lastId 0. |
| Server.ServerHandler.Preloaded | src/lt/andrikonis/penkiolika/ServerHandler.java:160-163 | The preloading handler holds exactly the given games and lastId 0. |
| Server.ServerHandler.NewShuffledGame | src/lt/andrikonis/penkiolika/ServerHandler.java:211-212 | A fresh game, shuffled from the final board: solvable and not final. |
| Server.ServerHandler.Register | src/lt/andrikonis/penkiolika/ServerHandler.java:213 | Stores the game under the id, replacing any game there, and keeps the registry valid. |
| Server.ServerHandler.HandlePostNewGame | src/lt/andrikonis/penkiolika/ServerHandler.java:209-216 | Several things hold after a POST: lastId has grown by exactly one; a fresh game, with a fresh board array, is stored under its decimal text and nothing else changes in the map; that game is solvable; the answer is 201 with the id, the board and final = false. |
| Server.ServerHandler.HandleGetGame | src/lt/andrikonis/penkiolika/ServerHandler.java:220-228 | 200 with the game's view when the id is present, otherwise 404 "Game with id=... not found". Nothing changes. |
| Server.ServerHandler.HandlePatchDoMove | src/lt/andrikonis/penkiolika/ServerHandler.java:233-262 | The answer is PatchResult on the game's cells before the request. Only a 200 changes them, and then to the answered board. No other game's cells change. |
| Server.ServerHandler.HandlePatch | src/lt/andrikonis/penkiolika/ServerHandler.java:186-196 | A body that is not a JSON object, or whose move is not a string, gets 415 with the body text and the library's message. Any answer but 200 leaves every game's cells as they were. A 200 changes only the named game's cells, to the answered board. |
| Server.ServerHandler.HandleDeleteGame | src/lt/andrikonis/penkiolika/ServerHandler.java:266-274 | A present id is removed and its view returned with 200. An absent id gets 404. No other entry changes, and neither does lastId. |
| Server.ServerHandler.RouteRequest | src/lt/andrikonis/penkiolika/ServerHandler.java:179-205 | The base-path test, the split and the two pattern matches pick exactly the route RouteOf describes. |
| Server.ServerHandler.Handle | src/lt/andrikonis/penkiolika/ServerHandler.java:176-206 | The whole dispatcher, per route: 500 outside the base and 400 for anything unsupported, the POST, GET, PATCH and DELETE answers above, and the 415 cases. POST stores one fresh game, with a fresh board array, under the new id, leaves every other entry as it was, and answers with that game's cells. DELETE removes exactly the requested id. A PATCH answered 200 changes the cells of the named game only, and no other answer changes any game's cells. |
| Server.ServerHandler.Serve | src/lt/andrikonis/penkiolika/ServerHandler.java:182-204 | The same per-route answers and guarantees on the map and on every game's cells as Handle, for a route already chosen. |
| Server.ServerHandler.ServeUpdate | src/lt/andrikonis/penkiolika/ServerHandler.java:182-198 | The same answers and guarantees for the POST, PATCH and DELETE routes, the only ones that change the registry. |
| Server.ServerHandler.CreateTwice | test/lt/andrikonis/penkiolika/ServerHandlerTest.java:104-115 | Two creations in a row both answer 201, with different ids, and neither game is final. |
| Server.ServerHandler.CreateThenGet | src/lt/andrikonis/penkiolika/ServerHandler.java:209-228 | A game created by a POST through the dispatcher can be requested next: a GET of the new id answers 200 with the same id and board. |
| Server.ServerHandler.DeleteThenGet | test/lt/andrikonis/penkiolika/ServerHandlerTest.java:260-279 | DELETE answers 200 when the id was present and 404 otherwise. A GET of the same id afterwards answers 404. |

## Left out

- HTTP transport is not modelled. This covers `HttpExchange`, reading the request body, `sendResponseHeaders`, and the output written by `respondJson`/`respondError` (ServerHandler.java:314-335). A response is a value: a status and a payload.
- JSON parsing and printing (org.json) are left out because the library is foreign code. The PATCH body is an already-parsed `Body`. `JSONException` messages are inputs, and the views are datatypes rather than text.
- Concurrency is left out: `ConcurrentHashMap`, `AtomicInteger` and the `synchronized` methods and blocks. Every operation is sequential and atomic.
- `java.util.Random` in `shuffle` is replaced by the `draws` sequence, with the first-legal-direction fallback once it is used up.
- `hashCode` is left out: it depends on Java's overflowing hash arithmetic and promises nothing about behaviour.
- `Server.java` (process start-up and port parsing) is not part of this model.
- Decimal.NatToString: `lastId` is an unbounded `nat`. The model does not capture the 32-bit `int` wrap-around after 2^31 - 1 games, where Java's ids would turn negative and eventually repeat.
- Game.Penkiolika.MoveBottom, Game.Penkiolika.MoveLeft and Game.Penkiolika.MoveRight require a board holding an empty cell. On a board without one, Java computes index -1, and these three moves then index the array out of bounds; Board.MissingEmptyCell shows why. Game.Penkiolika.MoveTop needs no such requirement: it rejects -1.
- Game.Penkiolika.MoveEmptyCell and Game.Penkiolika.MoveIn require an empty cell for the same reason, for the bottom, left and right moves. The top move needs none: without an empty cell it answers false and changes nothing, as in Java.
- Game.Penkiolika.Shuffle requires an empty cell when times > 0, for the same reason: once the Java loop runs on a board without one, it either throws or never ends. With times <= 0 the loop does not run, and any board is accepted and left unchanged. Game.Penkiolika.ShuffleDefault, which always makes 101 moves, requires an empty cell.
- Server.ServerHandler.Preloaded requires every preloaded game to have 16 cells with an empty cell. The registry invariant needs this so that every later PATCH stays within the array. Java accepts any game here, and a bottom, left or right move on a game without an empty cell would throw.
- Server.ServerHandler.NewShuffledGame, Server.ServerHandler.HandlePostNewGame, Server.ServerHandler.Handle, Server.ServerHandler.Serve and Server.ServerHandler.ServeUpdate state the new game's board abstractly: solvable and not final. They do not state it as the exact shuffle of the final board. Game.Penkiolika.ShuffleDefault states the exact board, and Board.DefaultShuffleOfFinal proves the abstract facts about it.
- Game.Penkiolika.Equals takes a `Penkiolika?` rather than any `Object`. Java's `instanceof` test for other classes is only represented by `null`, which compares unequal.
- URL decoding of the request path is not modelled. The path is taken as given.
