/**
 * The pure half of the request handler: how a request path is cut into
 * segments (Java's `String.split("/")`, which drops trailing empty strings),
 * how segments are matched against a pattern with wildcards, which route a
 * method and path select, and how a move is named in a request body.
 */
module Routing {
  import opened Wrappers
  import opened Board

  const BasePath := "/penkiolika"
  const GamePath := "game"

  // ---------------------------------------------------------------------
  // Splitting a path on '/'

  /** Every field between slashes, empty ones included: k slashes give k + 1 fields. */
  function Fields(s: string): (r: seq<string>)
    ensures |r| >= 1
    ensures forall k :: 0 <= k < |r| ==> '/' !in r[k]
    decreases |s|
  {
    if s == [] then [""]
    else
      var rest := Fields(s[1..]);
      if s[0] == '/' then [""] + rest else [[s[0]] + rest[0]] + rest[1..]
  }

  /** The fields put back together with a '/' between neighbours. */
  function Join(fs: seq<string>): string
    requires |fs| >= 1
    decreases |fs|
  {
    if |fs| == 1 then fs[0] else fs[0] + "/" + Join(fs[1..])
  }

  /** Cutting at every slash loses nothing. */
  lemma {:induction false} JoinFields(s: string)
    ensures Join(Fields(s)) == s
    decreases |s|
  {
    if s != [] {
      var rest := Fields(s[1..]);
      JoinFields(s[1..]);
      if s[0] == '/' {
        assert ([""] + rest)[1..] == rest;
      } else {
        var r := [[s[0]] + rest[0]] + rest[1..];
        assert r[1..] == rest[1..];
        if |rest| > 1 {
          assert Join(rest) == rest[0] + "/" + Join(rest[1..]);
        }
      }
      assert s == [s[0]] + s[1..];
    }
  }

  /** A slash-free prefix joins the first field. */
  lemma {:induction false} FieldsOfPrefix(a: string, s: string)
    requires '/' !in a
    ensures Fields(a + s) == [a + Fields(s)[0]] + Fields(s)[1..]
    decreases |a|
  {
    if a != [] {
      FieldsOfPrefix(a[1..], s);
      assert (a + s)[1..] == a[1..] + s;
      assert a + Fields(s)[0] == [a[0]] + (a[1..] + Fields(s)[0]);
    } else {
      var fs := Fields(s);
      assert a + s == s && a + fs[0] == fs[0];
      assert fs == [fs[0]] + fs[1..];
    }
  }

  /** Splitting what was joined from slash-free fields gives the fields back. */
  lemma {:induction false} FieldsJoin(fs: seq<string>)
    requires |fs| >= 1 && forall k :: 0 <= k < |fs| ==> '/' !in fs[k]
    ensures Fields(Join(fs)) == fs
    decreases |fs|
  {
    if |fs| == 1 {
      FieldsOfPrefix(fs[0], "");
      assert fs[0] + "" == fs[0];
    } else {
      var tail := Join(fs[1..]);
      FieldsJoin(fs[1..]);
      assert Fields("/" + tail) == [""] + Fields(tail) by {
        assert ("/" + tail)[1..] == tail;
      }
      FieldsOfPrefix(fs[0], "/" + tail);
      assert fs[0] + "/" + tail == fs[0] + ("/" + tail);
      assert fs[0] + "" == fs[0];
      assert fs == [fs[0]] + fs[1..];
    }
  }

  /** Removes the empty strings at the end. */
  function DropTrailingEmpty(fs: seq<string>): (r: seq<string>)
    ensures |r| <= |fs| && r == fs[..|r|]
    ensures r == [] || r[|r| - 1] != ""
    ensures forall k :: |r| <= k < |fs| ==> fs[k] == ""
    decreases |fs|
  {
    if fs == [] || fs[|fs| - 1] != "" then fs else DropTrailingEmpty(fs[..|fs| - 1])
  }

  /**
   * Java's `s.split("/")`: a string without a slash comes back whole (even
   * the empty string); otherwise the fields, without the trailing empty ones.
   */
  function JavaSplit(s: string): (r: seq<string>)
    ensures forall k :: 0 <= k < |r| ==> '/' !in r[k]
    ensures '/' !in s ==> r == [s]
    ensures '/' in s ==> |r| <= |Fields(s)| && r == Fields(s)[..|r|] && (r == [] || r[|r| - 1] != "")
    ensures '/' in s ==> forall k :: |r| <= k < |Fields(s)| ==> Fields(s)[k] == ""
  {
    if '/' !in s then [s] else DropTrailingEmpty(Fields(s))
  }

  /** Slash-free fields that do not end in an empty one are split back exactly. */
  lemma SplitOfJoin(fs: seq<string>)
    requires |fs| >= 2 && fs[|fs| - 1] != ""
    requires forall k :: 0 <= k < |fs| ==> '/' !in fs[k]
    ensures JavaSplit(Join(fs)) == fs
  {
    FieldsJoin(fs);
    assert Join(fs) == fs[0] + "/" + Join(fs[1..]);
    assert Join(fs)[|fs[0]|] == '/';
  }

  /** A trailing slash adds no segment, a lone slash gives no segment at all. */
  lemma SplitExamples()
    ensures JavaSplit("") == [""]
    ensures JavaSplit("/") == []
    ensures JavaSplit("/game/") == ["", "game"]
    ensures JavaSplit("/game") == ["", "game"]
  {
    assert Join(["", ""]) == "/";
    FieldsJoin(["", ""]);
    assert DropTrailingEmpty(["", ""]) == DropTrailingEmpty([""]);
    assert Join(["", "game", ""]) == "/game/";
    FieldsJoin(["", "game", ""]);
    assert ["", "game", ""][..2] == ["", "game"];
    assert "/game"[0] == '/';
    SplitOfJoin(["", "game"]);
  }

  // ---------------------------------------------------------------------
  // Matching segments against a pattern

  /**
   * The segments are one more than the pattern, the first is empty (the
   * path started with '/'), and each pattern entry is a wildcard (None) or
   * equal to the segment after it.
   */
  predicate Matches(received: seq<string>, pattern: seq<Option<string>>) {
    |received| == |pattern| + 1 && received[0] == "" &&
    forall i :: 0 <= i < |pattern| ==> pattern[i].None? || pattern[i].value == received[i + 1]
  }

  /** The matcher loop: the length and first-segment test, then entry by entry. */
  method PathMatches(received: seq<string>, pattern: seq<Option<string>>) returns (r: bool)
    ensures r == Matches(received, pattern)
  {
    if |received| == |pattern| + 1 && received[0] == "" {
      var i := 0;
      while i < |pattern|
        invariant 0 <= i <= |pattern|
        invariant forall j :: 0 <= j < i ==> pattern[j].None? || pattern[j].value == received[j + 1]
      {
        if pattern[i].Some? && pattern[i].value != received[i + 1] {
          return false;
        }
        i := i + 1;
      }
      return true;
    } else {
      return false;
    }
  }

  // ---------------------------------------------------------------------
  // Routes

  /** What the handler does with a request. */
  datatype Route =
    | NewGame
    | GetGame(id: string)
    | DoMove(id: string)
    | DeleteGame(id: string)
    | Unsupported
    | WrongPath

  /** `s` begins with `prefix`: the prefix followed by the rest of `s`. */
  predicate StartsWith(s: string, prefix: string): (r: bool)
    ensures r <==> |prefix| <= |s| && forall k :: 0 <= k < |prefix| ==> s[k] == prefix[k]
    ensures r ==> s == prefix + s[|prefix|..]
  {
    |prefix| <= |s| && s[..|prefix|] == prefix
  }

  /** A prefix followed by a rest starts with the prefix, and the rest is what follows it. */
  lemma PrefixAndRest(prefix: string, rest: string)
    ensures StartsWith(prefix + rest, prefix) && (prefix + rest)[|prefix|..] == rest
  {
    assert (prefix + rest)[..|prefix|] == prefix;
  }

  /**
   * The segments after the base path: the slash-free fields of the rest of
   * the path, in order, without trailing empty ones (the whole rest when it
   * has no slash).
   */
  function Segments(fullPath: string): (r: seq<string>)
    requires StartsWith(fullPath, BasePath)
    ensures var rest := fullPath[|BasePath|..];
            fullPath == BasePath + rest &&
            (forall k :: 0 <= k < |r| ==> '/' !in r[k]) &&
            ('/' !in rest ==> r == [rest]) &&
            ('/' in rest ==> |r| <= |Fields(rest)| && r == Fields(rest)[..|r|] && (r == [] || r[|r| - 1] != "")) &&
            ('/' in rest ==> forall k :: |r| <= k < |Fields(rest)| ==> Fields(rest)[k] == "")
  {
    JavaSplit(fullPath[|BasePath|..])
  }

  /** A path built as the base followed by `rest` splits as `rest` does. */
  lemma SegmentsAfterBase(rest: string)
    ensures StartsWith(BasePath + rest, BasePath) && Segments(BasePath + rest) == JavaSplit(rest)
  {
    PrefixAndRest(BasePath, rest);
  }

  /**
   * The handler's decision: outside the base path it is the wrong handler;
   * under it, POST matches ["game"], GET, PATCH and DELETE match
   * ["game", any], and everything else is unsupported. The id of a game
   * route is never empty and never holds a slash.
   */
  function RouteOf(verb: string, fullPath: string): (r: Route)
    ensures r == WrongPath <==> !StartsWith(fullPath, BasePath)
    ensures (r.GetGame? || r.DoMove? || r.DeleteGame?) ==> r.id != "" && '/' !in r.id
  {
    if !StartsWith(fullPath, BasePath) then WrongPath
    else
      var elems := Segments(fullPath);
      if verb == "POST" && Matches(elems, [Some(GamePath)]) then NewGame
      else if verb == "GET" && Matches(elems, [Some(GamePath), None]) then GetGame(elems[2])
      else if verb == "PATCH" && Matches(elems, [Some(GamePath), None]) then DoMove(elems[2])
      else if verb == "DELETE" && Matches(elems, [Some(GamePath), None]) then DeleteGame(elems[2])
      else Unsupported
  }

  /** The path of the game with the given id. */
  function GameUri(id: string): string {
    BasePath + "/" + GamePath + "/" + id
  }

  /** The segments of a game's path: the empty one before the first slash, "game", the id. */
  lemma GameSegments(id: string)
    requires id != "" && '/' !in id
    ensures StartsWith(GameUri(id), BasePath) && Segments(GameUri(id)) == ["", GamePath, id]
  {
    var rest := "/" + GamePath + "/" + id;
    assert GameUri(id) == BasePath + rest;
    PrefixAndRest(BasePath, rest);
    assert Join([GamePath, id]) == GamePath + "/" + id;
    assert Join(["", GamePath, id]) == "" + "/" + Join([GamePath, id]);
    assert rest == Join(["", GamePath, id]);
    SplitOfJoin(["", GamePath, id]);
  }

  /** Every non-empty slash-free id is routed to its game, and the id comes back unchanged. */
  lemma GameRoutes(id: string)
    requires id != "" && '/' !in id
    ensures RouteOf("GET", GameUri(id)) == GetGame(id)
    ensures RouteOf("PATCH", GameUri(id)) == DoMove(id)
    ensures RouteOf("DELETE", GameUri(id)) == DeleteGame(id)
    ensures RouteOf("POST", GameUri(id)) == Unsupported
  {
    GameSegments(id);
    var elems := Segments(GameUri(id));
    assert Matches(elems, [Some(GamePath), None]) && !Matches(elems, [Some(GamePath)]);
  }

  /** The segments of the creation path, with and without the trailing slash. */
  lemma NewGameSegments()
    ensures StartsWith(BasePath + "/" + GamePath + "/", BasePath)
    ensures StartsWith(BasePath + "/" + GamePath, BasePath)
    ensures Segments(BasePath + "/" + GamePath + "/") == ["", GamePath]
    ensures Segments(BasePath + "/" + GamePath) == ["", GamePath]
  {
    SplitExamples();
    assert "/" + GamePath + "/" == "/game/";
    assert BasePath + "/" + GamePath + "/" == BasePath + ("/" + GamePath + "/");
    SegmentsAfterBase("/game/");
    assert "/" + GamePath == "/game";
    assert BasePath + "/" + GamePath == BasePath + ("/" + GamePath);
    SegmentsAfterBase("/game");
  }

  /** POST creates at "/penkiolika/game" with or without the trailing slash; an empty id is no game route. */
  lemma NewGameRoutes()
    ensures RouteOf("POST", BasePath + "/" + GamePath + "/") == NewGame
    ensures RouteOf("POST", BasePath + "/" + GamePath) == NewGame
    ensures RouteOf("GET", BasePath + "/" + GamePath + "/") == Unsupported
  {
    NewGameSegments();
    assert Matches(["", GamePath], [Some(GamePath)]);
  }

  // ---------------------------------------------------------------------
  // Move names in a request body

  function MoveName(d: Direction): string {
    match d
    case Left => "left"
    case Right => "right"
    case Top => "top"
    case Bottom => "bottom"
  }

  /** The four accepted names, each naming exactly one direction. */
  function ParseMove(s: string): (r: Option<Direction>)
    ensures r.Some? ==> MoveName(r.value) == s
    ensures r.None? ==> forall d: Direction :: MoveName(d) != s
  {
    if s == "left" then Some(Left)
    else if s == "right" then Some(Right)
    else if s == "top" then Some(Top)
    else if s == "bottom" then Some(Bottom)
    else None
  }
}
