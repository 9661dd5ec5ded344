/**
 * The request handler: a registry of games keyed by id plus the counter that
 * issues ids, and the dispatch of POST, GET, PATCH and DELETE requests under
 * /penkiolika to create, show, move and remove games. Responses are values
 * (status and payload) instead of JSON text written to a connection.
 */
module Server {
  import opened Wrappers
  import opened Board
  import opened Game
  import opened Decimal
  import opened Routing

  /** A response body: the view of a game, or an error with its reason. */
  datatype Payload =
    | GameJson(id: string, board: seq<int>, final: bool)
    | ErrorJson(reason: string)

  datatype Response = Response(status: int, payload: Payload)

  /** The `move` field of a PATCH body that parsed as a JSON object. */
  datatype MoveField =
    | Missing                   // no "move" key
    | Text(name: string)        // a string value
    | NotText(message: string)  // a value the library refuses to read as a string, with its message

  /** A PATCH body as the JSON library reads it. */
  datatype Parsed = NotAnObject(message: string) | Object(move: MoveField)

  /** The raw text of a PATCH body and how it parsed. */
  datatype Body = Body(text: string, parsed: Parsed)

  /** 404 whose reason names the missing id: it sits right after "Game with id=". */
  function NotFound(id: string): (r: Response)
    ensures r.status == 404 && r.payload.ErrorJson?
    ensures var reason := r.payload.reason;
            |reason| == |id| + 23 && reason[13..13 + |id|] == id
  {
    Response(404, ErrorJson("Game with id=" + id + " not found"))
  }

  /** 415 whose reason quotes the received body and ends with the parser's message. */
  function NotJson(text: string, message: string): (r: Response)
    ensures r.status == 415 && r.payload.ErrorJson?
    ensures var reason, n := r.payload.reason, 44;
            |reason| == n + |text| + 2 + |message| &&
            reason[n..n + |text|] == text && reason[n + |text| + 2..] == message
  {
    Response(415, ErrorJson("JSON object contents is expected, received: " + text + ". " + message))
  }

  /** Different ids get different 404 answers. */
  lemma NotFoundNamesId(a: string, b: string)
    requires NotFound(a) == NotFound(b)
    ensures a == b
  {
    assert NotFound(a).payload.reason[13..13 + |a|] == a;
  }

  /** The view of a game: its id, its cells, and whether they are the final board. */
  function GameView(id: string, g: Penkiolika): (p: Payload)
    requires g.Valid()
    reads g.board
    ensures p.GameJson? && p.id == id && p.board == g.Cells() && |p.board| == Size
    ensures p.final <==> p.board == FinalBoard
  {
    GameJson(id, g.Cells(), g.IsFinal())
  }

  /**
   * The decision of a move request, given the cells of the game under `id`
   * (None when there is none). The move field is checked first, then the
   * game is looked up, then the move is tried. Failure is the library's
   * exception for a non-string move.
   */
  function PatchResult(id: string, move: MoveField, found: Option<seq<int>>): (r: Result<Response, string>)
    requires found.Some? ==> IsBoard(found.value)
    ensures r.Failure? <==> move.NotText?
    ensures r.Success? ==> r.value.status in {200, 400, 404, 409}
    ensures r.Success? && r.value.status == 200 ==>
              move.Text? && ParseMove(move.name).Some? && found.Some? &&
              r.value.payload.GameJson? && r.value.payload.id == id &&
              Move(found.value, ParseMove(move.name).value) == Some(r.value.payload.board) &&
              (r.value.payload.final <==> r.value.payload.board == FinalBoard)
  {
    match move
    case Missing => Success(Response(400, ErrorJson("Move must be provided")))
    case NotText(message) => Failure(message)
    case Text(name) =>
      match ParseMove(name)
      case None => Success(Response(400, ErrorJson("Unknown move " + name)))
      case Some(d) =>
        if found.None? then Success(NotFound(id))
        else
          match Move(found.value, d)
          case Some(c) => Success(Response(200, GameJson(id, c, c == FinalBoard)))
          case None => Success(Response(409, ErrorJson("Unable to move " + name + " in game with id=" + id)))
  }

  /** Which status a move request gets, in the order the checks are made. */
  lemma PatchStatuses(id: string, move: MoveField, found: Option<seq<int>>)
    requires found.Some? ==> IsBoard(found.value)
    ensures var r := PatchResult(id, move, found);
            (move.Missing? ==> r.Success? && r.value.status == 400) &&
            (move.Text? && ParseMove(move.name).None? ==> r.Success? && r.value.status == 400) &&
            (move.Text? && ParseMove(move.name).Some? ==>
               r.Success? &&
               (r.value.status == 404 <==> found.None?) &&
               (r.value.status == 409 <==> found.Some? && Move(found.value, ParseMove(move.name).value).None?) &&
               (r.value.status == 200 <==> found.Some? && Move(found.value, ParseMove(move.name).value).Some?))
  {
  }

  /** A missing or unknown move is refused before the game is looked up. */
  lemma MoveCheckedBeforeLookup(id: string, move: MoveField, f1: Option<seq<int>>, f2: Option<seq<int>>)
    requires f1.Some? ==> IsBoard(f1.value)
    requires f2.Some? ==> IsBoard(f2.value)
    requires move.Missing? || move.NotText? || (move.Text? && ParseMove(move.name).None?)
    ensures PatchResult(id, move, f1) == PatchResult(id, move, f2)
  {
  }

  /**
   * A successful move request followed by a request for the opposite move
   * succeeds and shows the game as it was before.
   */
  lemma {:induction false} PatchThenOpposite(id: string, d: Direction, b: seq<int>)
    requires IsBoard(b) && ZeroUnique(b)
    requires PatchResult(id, Text(MoveName(d)), Some(b)).Success?
    requires PatchResult(id, Text(MoveName(d)), Some(b)).value.status == 200
    ensures var c := PatchResult(id, Text(MoveName(d)), Some(b)).value.payload.board;
            IsBoard(c) &&
            PatchResult(id, Text(MoveName(Opposite(d))), Some(c)) ==
              Success(Response(200, GameJson(id, b, b == FinalBoard)))
  {
    assert ParseMove(MoveName(d)) == Some(d);
    assert ParseMove(MoveName(Opposite(d))) == Some(Opposite(d));
    MoveKeepsZeroUnique(b, d);
    MoveThenOpposite(b, d);
  }

  class ServerHandler {
    /** The games created so far (or preloaded), by id. */
    var games: map<string, Penkiolika>
    /** The id of the last game created, 0 before the first. */
    var lastId: nat

    /** The cell arrays of all registered games. */
    ghost function Boards(): set<array<int>>
      reads `games
    {
      set id | id in games :: games[id].board
    }

    /** Every registered game has sixteen cells, one of them empty. */
    ghost predicate Valid()
      reads `games, Boards()
    {
      forall id :: id in games ==> games[id].Valid() && Empty in games[id].Cells()
    }

    /** A handler with no games. */
    constructor ()
      ensures Valid() && games == map[] && lastId == 0
    {
      games := map[];
      lastId := 0;
    }

    /** A handler that starts with a copy of the given games; ids still start from 1. */
    constructor Preloaded(initial: map<string, Penkiolika>)
      requires forall id :: id in initial ==> initial[id].Valid() && Empty in initial[id].Cells()
      ensures Valid() && games == initial && lastId == 0
    {
      games := initial;
      lastId := 0;
    }

    /**
     * A game in the final state, shuffled with the default number of moves:
     * solvable by legal moves, and never final.
     */
    static method NewShuffledGame(draws: seq<Direction>) returns (game: Penkiolika)
      ensures fresh(game) && fresh(game.board) && game.Valid() && Empty in game.Cells()
      ensures Solvable(game.Cells()) && !game.IsFinal()
    {
      game := new Penkiolika();
      game.ShuffleDefault(draws);
    }

    /**
     * POST: the next id, a new shuffled game stored under it (replacing any
     * game already there) and shown with 201.
     */
    method HandlePostNewGame(draws: seq<Direction>) returns (resp: Response)
      requires Valid()
      modifies this
      ensures Valid()
      ensures lastId == old(lastId) + 1
      ensures var id := NatToString(lastId);
              id in games && fresh(games[id]) && fresh(games[id].board) && games == old(games)[id := games[id]] &&
              Solvable(games[id].Cells()) &&
              resp == Response(201, GameJson(id, games[id].Cells(), false))
    {
      var next := lastId + 1;
      var id := NatToString(next);
      var game := NewShuffledGame(draws);
      Register(id, game);
      lastId := next;
      resp := Response(201, GameView(id, game));
    }

    /** Stores `game` under `id`, replacing any game already there. */
    method Register(id: string, game: Penkiolika)
      requires Valid() && game.Valid() && Empty in game.Cells()
      modifies this
      ensures Valid() && games == old(games)[id := game] && lastId == old(lastId)
    {
      ghost var before := games;
      games := games[id := game];
      forall k | k in games
        ensures games[k].Valid() && Empty in games[k].Cells()
      {
        if k != id {
          assert before[k].board in old(Boards());
        }
      }
    }

    /** GET: the view of the game with 200, or 404 when there is none. */
    method HandleGetGame(id: string) returns (resp: Response)
      requires Valid()
      ensures id in games ==> resp == Response(200, GameView(id, games[id]))
      ensures id !in games ==> resp == NotFound(id)
    {
      if id in games {
        var game := games[id];
        resp := Response(200, GameView(id, game));
      } else {
        resp := NotFound(id);
      }
    }

    /**
     * PATCH with a parsed object: decided by PatchResult on the game's cells;
     * only a 200 changes them, and then by exactly the named move.
     */
    method HandlePatchDoMove(id: string, move: MoveField) returns (r: Result<Response, string>)
      requires Valid()
      modifies if id in games then {games[id].board} else {}
      ensures Valid()
      ensures r == PatchResult(id, move, if id in games then Some(old(games[id].Cells())) else None)
      ensures id in games ==>
                games[id].Cells() ==
                  if r.Success? && r.value.status == 200 then r.value.payload.board
                  else old(games[id].Cells())
      ensures forall g :: g in old(games).Values && (id !in games || g.board != games[id].board) ==>
                g.Cells() == old(g.Cells())
    {
      match move {
        case Missing =>
          r := Success(Response(400, ErrorJson("Move must be provided")));
        case NotText(message) =>
          r := Failure(message);
        case Text(name) =>
          var d := ParseMove(name);
          if d.None? {
            r := Success(Response(400, ErrorJson("Unknown move " + name)));
          } else if id !in games {
            r := Success(NotFound(id));
          } else {
            var game := games[id];
            var moved := game.MoveIn(d.value);
            if moved {
              r := Success(Response(200, GameView(id, game)));
            } else {
              r := Success(Response(409, ErrorJson("Unable to move " + name + " in game with id=" + id)));
            }
          }
      }
    }

    /**
     * PATCH: the body must parse as a JSON object whose move, when present,
     * is a string; otherwise 415 with the body and the library's message.
     */
    method HandlePatch(id: string, body: Body) returns (resp: Response)
      requires Valid()
      modifies if id in games then {games[id].board} else {}
      ensures Valid()
      ensures var found := if id in old(games) then Some(old(games[id].Cells())) else None;
              resp == match body.parsed
                      case NotAnObject(message) => NotJson(body.text, message)
                      case Object(move) =>
                        match PatchResult(id, move, found)
                        case Success(answer) => answer
                        case Failure(message) => NotJson(body.text, message)
      ensures resp.status == 200 ==> id in games && games[id].Cells() == resp.payload.board
      ensures resp.status == 200 ==>
                forall g :: g in old(games).Values && g.board != games[id].board ==> g.Cells() == old(g.Cells())
      ensures resp.status != 200 ==> forall g :: g in old(games).Values ==> g.Cells() == old(g.Cells())
    {
      match body.parsed {
        case NotAnObject(message) =>
          resp := NotJson(body.text, message);
        case Object(move) =>
          var r := HandlePatchDoMove(id, move);
          match r {
            case Success(answer) => resp := answer;
            case Failure(message) => resp := NotJson(body.text, message);
          }
      }
    }

    /** DELETE: removes the game and shows it with 200, or 404 when there is none. */
    method HandleDeleteGame(id: string) returns (resp: Response)
      requires Valid()
      modifies this
      ensures Valid()
      ensures games == old(games) - {id} && lastId == old(lastId)
      ensures id in old(games) ==> resp == Response(200, old(GameView(id, games[id])))
      ensures id !in old(games) ==> resp == NotFound(id)
    {
      if id in games {
        var game := games[id];
        games := games - {id};
        resp := Response(200, GameView(id, game));
      } else {
        resp := NotFound(id);
      }
    }

    /**
     * The route of a request, found as the handler finds it: the base-path
     * test, the split of the rest on '/', and the pattern matcher.
     */
    static method RouteRequest(verb: string, fullPath: string) returns (route: Route)
      ensures route == RouteOf(verb, fullPath)
    {
      if StartsWith(fullPath, BasePath) {
        var elems := Segments(fullPath);
        var isNew := PathMatches(elems, [Some(GamePath)]);
        var isGame := PathMatches(elems, [Some(GamePath), None]);
        if verb == "POST" && isNew {
          route := NewGame;
        } else if verb == "GET" && isGame {
          route := GetGame(elems[2]);
        } else if verb == "PATCH" && isGame {
          route := DoMove(elems[2]);
        } else if verb == "DELETE" && isGame {
          route := DeleteGame(elems[2]);
        } else {
          route := Unsupported;
        }
      } else {
        route := WrongPath;
      }
    }

    /**
     * The dispatcher. Handle, Serve and ServeUpdate share one contract: the
     * work is split over three methods only to keep each proof small.
     * `draws` stands for the random directions of a new
     * game's shuffle. The route is the one RouteOf picks; a PATCH body that is
     * not a JSON object, or whose move is not a string, gets 415.
     */
    method Handle(verb: string, fullPath: string, body: Body, draws: seq<Direction>) returns (resp: Response)
      requires Valid()
      modifies this, Boards()
      ensures Valid()
      ensures RouteOf(verb, fullPath) == WrongPath ==>
                resp == Response(500, ErrorJson("Wrong path for this handler: " + fullPath))
      ensures RouteOf(verb, fullPath) == Unsupported ==>
                resp == Response(400, ErrorJson("Method " + verb + " for path is not supported: " + fullPath))
      ensures RouteOf(verb, fullPath) == NewGame ==>
                var id := NatToString(lastId);
                lastId == old(lastId) + 1 &&
                id in games && fresh(games[id]) && fresh(games[id].board) && games == old(games)[id := games[id]] &&
                resp.status == 201 && resp.payload.GameJson? &&
                resp.payload.id == id && resp.payload.board == games[id].Cells() && !resp.payload.final &&
                IsBoard(resp.payload.board) && Solvable(resp.payload.board)
      ensures RouteOf(verb, fullPath).GetGame? ==>
                var id := RouteOf(verb, fullPath).id;
                resp == if id in games then Response(200, GameView(id, games[id]))
                        else NotFound(id)
      ensures RouteOf(verb, fullPath).DoMove? ==>
                var id := RouteOf(verb, fullPath).id;
                var found := if id in old(games) then Some(old(games[id].Cells())) else None;
                resp == match body.parsed
                        case NotAnObject(message) => NotJson(body.text, message)
                        case Object(move) =>
                          match PatchResult(id, move, found)
                          case Success(answer) => answer
                          case Failure(message) => NotJson(body.text, message)
      ensures RouteOf(verb, fullPath).DoMove? && resp.status == 200 ==>
                var id := RouteOf(verb, fullPath).id;
                id in games && games[id].Cells() == resp.payload.board &&
                forall g :: g in old(games).Values && g.board != games[id].board ==> g.Cells() == old(g.Cells())
      ensures RouteOf(verb, fullPath).DeleteGame? ==>
                var id := RouteOf(verb, fullPath).id;
                games == old(games) - {id} &&
                resp == if id in old(games) then Response(200, old(GameView(id, games[id])))
                        else NotFound(id)
      // Only POST issues ids and adds keys; only DELETE removes keys.
      ensures !RouteOf(verb, fullPath).NewGame? ==> lastId == old(lastId) && games.Keys <= old(games).Keys
      ensures !RouteOf(verb, fullPath).DeleteGame? ==> old(games).Keys <= games.Keys
      ensures !RouteOf(verb, fullPath).NewGame? && !RouteOf(verb, fullPath).DeleteGame? ==> games == old(games)
      // Only a PATCH answered with 200 changes the cells of an existing game.
      ensures !(RouteOf(verb, fullPath).DoMove? && resp.status == 200) ==>
                forall g :: g in old(games).Values ==> g.Cells() == old(g.Cells())
    {
      var route := RouteRequest(verb, fullPath);
      resp := Serve(route, verb, fullPath, body, draws);
    }

    /** Answers a request whose route is already known. */
    method Serve(route: Route, verb: string, fullPath: string, body: Body, draws: seq<Direction>) returns (resp: Response)
      requires Valid()
      modifies this, Boards()
      ensures Valid()
      ensures route == WrongPath ==>
                resp == Response(500, ErrorJson("Wrong path for this handler: " + fullPath))
      ensures route == Unsupported ==>
                resp == Response(400, ErrorJson("Method " + verb + " for path is not supported: " + fullPath))
      ensures route == NewGame ==>
                var id := NatToString(lastId);
                lastId == old(lastId) + 1 &&
                id in games && fresh(games[id]) && fresh(games[id].board) && games == old(games)[id := games[id]] &&
                resp.status == 201 && resp.payload.GameJson? &&
                resp.payload.id == id && resp.payload.board == games[id].Cells() && !resp.payload.final &&
                IsBoard(resp.payload.board) && Solvable(resp.payload.board)
      ensures route.GetGame? ==>
                var id := route.id;
                resp == if id in games then Response(200, GameView(id, games[id]))
                        else NotFound(id)
      ensures route.DoMove? ==>
                var id := route.id;
                var found := if id in old(games) then Some(old(games[id].Cells())) else None;
                resp == match body.parsed
                        case NotAnObject(message) => NotJson(body.text, message)
                        case Object(move) =>
                          match PatchResult(id, move, found)
                          case Success(answer) => answer
                          case Failure(message) => NotJson(body.text, message)
      ensures route.DoMove? && resp.status == 200 ==>
                var id := route.id;
                id in games && games[id].Cells() == resp.payload.board &&
                forall g :: g in old(games).Values && g.board != games[id].board ==> g.Cells() == old(g.Cells())
      ensures route.DeleteGame? ==>
                var id := route.id;
                games == old(games) - {id} &&
                resp == if id in old(games) then Response(200, old(GameView(id, games[id])))
                        else NotFound(id)
      // Only POST issues ids and adds keys; only DELETE removes keys.
      ensures !route.NewGame? ==> lastId == old(lastId) && games.Keys <= old(games).Keys
      ensures !route.DeleteGame? ==> old(games).Keys <= games.Keys
      ensures !route.NewGame? && !route.DeleteGame? ==> games == old(games)
      // Only a PATCH answered with 200 changes the cells of an existing game.
      ensures !(route.DoMove? && resp.status == 200) ==>
                forall g :: g in old(games).Values ==> g.Cells() == old(g.Cells())
    {
      match route {
        case GetGame(id) =>
          resp := HandleGetGame(id);
        case Unsupported =>
          resp := Response(400, ErrorJson("Method " + verb + " for path is not supported: " + fullPath));
        case WrongPath =>
          resp := Response(500, ErrorJson("Wrong path for this handler: " + fullPath));
        case _ =>
          resp := ServeUpdate(route, body, draws);
      }
    }

    /** Answers the requests that may change the registry: POST, PATCH and DELETE. */
    method ServeUpdate(route: Route, body: Body, draws: seq<Direction>) returns (resp: Response)
      requires Valid() && (route.NewGame? || route.DoMove? || route.DeleteGame?)
      modifies this, Boards()
      ensures Valid()
      ensures route == NewGame ==>
                var id := NatToString(lastId);
                lastId == old(lastId) + 1 &&
                id in games && fresh(games[id]) && fresh(games[id].board) && games == old(games)[id := games[id]] &&
                resp.status == 201 && resp.payload.GameJson? &&
                resp.payload.id == id && resp.payload.board == games[id].Cells() && !resp.payload.final &&
                IsBoard(resp.payload.board) && Solvable(resp.payload.board)
      ensures route.DoMove? ==>
                var id := route.id;
                var found := if id in old(games) then Some(old(games[id].Cells())) else None;
                resp == match body.parsed
                        case NotAnObject(message) => NotJson(body.text, message)
                        case Object(move) =>
                          match PatchResult(id, move, found)
                          case Success(answer) => answer
                          case Failure(message) => NotJson(body.text, message)
      ensures route.DoMove? && resp.status == 200 ==>
                var id := route.id;
                id in games && games[id].Cells() == resp.payload.board &&
                forall g :: g in old(games).Values && g.board != games[id].board ==> g.Cells() == old(g.Cells())
      ensures route.DeleteGame? ==>
                var id := route.id;
                games == old(games) - {id} &&
                resp == if id in old(games) then Response(200, old(GameView(id, games[id])))
                        else NotFound(id)
      // Only POST issues ids and adds keys; only DELETE removes keys.
      ensures !route.NewGame? ==> lastId == old(lastId) && games.Keys <= old(games).Keys
      ensures !route.DeleteGame? ==> old(games).Keys <= games.Keys
      ensures !route.NewGame? && !route.DeleteGame? ==> games == old(games)
      // Only a PATCH answered with 200 changes the cells of an existing game.
      ensures !(route.DoMove? && resp.status == 200) ==>
                forall g :: g in old(games).Values ==> g.Cells() == old(g.Cells())
    {
      match route {
        case NewGame =>
          resp := HandlePostNewGame(draws);
        case DoMove(id) =>
          resp := HandlePatch(id, body);
        case DeleteGame(id) =>
          resp := HandleDeleteGame(id);
      }
    }

    /** Two creations in a row answer 201 with different ids. */
    method CreateTwice(first: seq<Direction>, second: seq<Direction>) returns (r1: Response, r2: Response)
      requires Valid()
      modifies this
      ensures Valid()
      ensures r1.status == 201 && r2.status == 201
      ensures r1.payload.GameJson? && r2.payload.GameJson? && r1.payload.id != r2.payload.id
      ensures !r1.payload.final && !r2.payload.final
    {
      r1 := HandlePostNewGame(first);
      ghost var n := lastId;
      r2 := HandlePostNewGame(second);
      DistinctIds(n, lastId);
    }

    /**
     * A game created through the dispatcher can be requested through it
     * next: a GET of the new id shows the board the POST answered.
     */
    method CreateThenGet(body: Body, draws: seq<Direction>) returns (created: Response, shown: Response)
      requires Valid()
      modifies this, Boards()
      ensures Valid()
      ensures created.status == 201 && created.payload.GameJson?
      ensures shown.status == 200 && shown.payload.GameJson?
      ensures shown.payload.id == created.payload.id && shown.payload.board == created.payload.board
    {
      NewGameRoutes();
      created := Handle("POST", BasePath + "/" + GamePath, body, draws);
      var id := created.payload.id;
      GameRoutes(id);
      shown := Handle("GET", GameUri(id), body, draws);
    }

    /** After a DELETE of an id, a GET of that id answers 404. */
    method DeleteThenGet(id: string) returns (deleted: Response, after: Response)
      requires Valid()
      modifies this
      ensures Valid()
      ensures deleted.status == (if id in old(games) then 200 else 404)
      ensures after == NotFound(id)
    {
      deleted := HandleDeleteGame(id);
      after := HandleGetGame(id);
    }
  }
}
