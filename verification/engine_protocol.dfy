/**
 The part of the Universal Chess Interface text protocol that the two board
 engines speak: the commands they post to the engine worker, their rendering
 as text lines, a reading of such lines as an engine takes them apart (the
 reading that the rendering is proved inverse to), and the reaction a handler returns
 for one line of engine output.
 */
module EngineProtocol {
  import opened Common
  import opened Text

  /** The commands the engines post, by meaning. */
  datatype Command =
    | Uci
    | SetOption(name: string, value: string)
    | UciNewGame
    | IsReady
    | PositionMoves(moves: string)
    | GoMovetime(ms: nat)

  /** The first word of a command's line, which names the command. */
  function Keyword(c: Command): string
  {
    match c
    case Uci => "uci"
    case SetOption(_, _) => "setoption"
    case UciNewGame => "ucinewgame"
    case IsReady => "isready"
    case PositionMoves(_) => "position"
    case GoMovetime(_) => "go"
  }

  /** The text line `postMessage` sends for a command. */
  function Render(c: Command): string
  {
    match c
    case Uci => "uci"
    case SetOption(name, value) => "setoption name " + name + " value " + value
    case UciNewGame => "ucinewgame"
    case IsReady => "isready"
    case PositionMoves(moves) => "position startpos moves " + moves
    case GoMovetime(ms) => "go movetime " + Decimal(ms)
  }

  /** The first index at or after `from` where `t` holds the word `k`. */
  function FindToken(t: seq<string>, k: string, from: nat): (r: Option<nat>)
    ensures r.Some? ==> from <= r.value < |t| && t[r.value] == k
    ensures r.Some? ==> forall j :: from <= j < r.value ==> t[j] != k
    ensures r.None? ==> forall j :: from <= j < |t| ==> t[j] != k
    decreases |t| - from
  {
    if from >= |t| then None
    else if t[from] == k then Some(from)
    else FindToken(t, k, from + 1)
  }

  /** A command line read word by word, as the protocol describes it. */
  function Parse(line: string): Option<Command>
  {
    ParseWords(Split(line))
  }

  /** The words of a command line read as a command: the first word names the
      command; `setoption name <id> value <x>` takes the words between `name`
      and the first word `value` as the name and the rest as the value;
      `position startpos moves …` takes the rest as the move list;
      `go movetime <n>` takes a decimal number of milliseconds. */
  function ParseWords(t: seq<string>): Option<Command>
  {
    if |t| == 0 then None
    else if t[0] == "setoption" then ParseSetOption(t)
    else if t[0] == "position" then ParsePosition(t)
    else if t[0] == "go" then ParseGo(t)
    else if |t| != 1 then None
    else if t[0] == "uci" then Some(Uci)
    else if t[0] == "ucinewgame" then Some(UciNewGame)
    else if t[0] == "isready" then Some(IsReady)
    else None
  }

  function ParseSetOption(t: seq<string>): Option<Command>
  {
    if |t| >= 2 && t[1] == "name" then
      match FindToken(t, "value", 2)
      case None => None
      case Some(i) => if i == 2 then None else Some(SetOption(Join(t[2..i]), Join(t[i + 1..])))
    else None
  }

  function ParsePosition(t: seq<string>): Option<Command>
  {
    if |t| >= 3 && t[1] == "startpos" && t[2] == "moves" then Some(PositionMoves(Join(t[3..])))
    else None
  }

  function ParseGo(t: seq<string>): Option<Command>
  {
    if |t| == 3 && t[1] == "movetime" && IsDecimal(t[2]) then Some(GoMovetime(DecimalValue(t[2])))
    else None
  }

  /** Commands whose rendering can be read back: an option name must not
      contain the word `value`. An empty name is fine: its line holds an
      empty word between `name` and `value`, which reads back as "". */
  predicate WellFormed(c: Command)
  {
    c.SetOption? ==> forall i :: 0 <= i < |Split(c.name)| ==> Split(c.name)[i] != "value"
  }

  lemma ConcatAssoc4<T>(a: seq<T>, b: seq<T>, c: seq<T>, d: seq<T>)
    ensures a + (b + (c + d)) == a + b + c + d
  {
  }

  lemma ConcatAssoc5<T>(a: seq<T>, b: seq<T>, c: seq<T>, d: seq<T>, e: seq<T>)
    ensures a + (b + (c + (d + e))) == a + b + c + d + e
  {
  }

  /** The words of a rendered option: the two keywords, the words of the name,
      the keyword `value`, the words of the value. */
  lemma SetOptionWords(name: string, value: string)
    ensures Split(Render(SetOption(name, value)))
         == ["setoption"] + ["name"] + Split(name) + ["value"] + Split(value)
  {
    var mid := name + [Space] + ("value" + [Space] + value);
    var mid2 := "name" + [Space] + mid;
    SetOptionShape(name, value);
    OptionTailWords(name, value);
    SplitAfterToken("name", mid);
    SplitAfterToken("setoption", mid2);
    ConcatAssoc5(["setoption"], ["name"], Split(name), ["value"], Split(value));
  }

  lemma SetOptionShape(name: string, value: string)
    ensures Render(SetOption(name, value))
         == "setoption" + [Space] + ("name" + [Space] + (name + [Space] + ("value" + [Space] + value)))
  {
  }

  lemma OptionTailWords(name: string, value: string)
    ensures Split(name + [Space] + ("value" + [Space] + value)) == Split(name) + (["value"] + Split(value))
  {
    SplitAfterToken("value", value);
    SplitConcat(name, "value" + [Space] + value);
  }

  /** Reading the words of a rendered option: the first `value` after the
      name is the one the rendering put there. */
  lemma ParseSetOptionWords(n: seq<string>, v: seq<string>)
    requires |n| >= 1 && |v| >= 1
    requires forall i :: 0 <= i < |n| ==> n[i] != "value"
    ensures ParseWords(["setoption"] + ["name"] + n + ["value"] + v) == Some(SetOption(Join(n), Join(v)))
  {
    var t := ["setoption"] + ["name"] + n + ["value"] + v;
    var i := 2 + |n|;
    assert t[0] == "setoption" && t[1] == "name";
    assert t[i] == "value";
    assert forall j :: 2 <= j < i ==> t[j] == n[j - 2];
    assert FindToken(t, "value", 2) == Some(i);
    assert t[2..i] == n;
    assert t[i + 1..] == v;
  }

  lemma SetOptionRoundTrip(name: string, value: string)
    requires WellFormed(SetOption(name, value))
    ensures Parse(Render(SetOption(name, value))) == Some(SetOption(name, value))
  {
    SetOptionWords(name, value);
    ParseSetOptionWords(Split(name), Split(value));
    JoinSplit(name);
    JoinSplit(value);
  }

  /** The words of a rendered position command: three keywords, then the
      words of the move list. */
  lemma PositionWords(moves: string)
    ensures Split(Render(PositionMoves(moves))) == ["position"] + ["startpos"] + ["moves"] + Split(moves)
  {
    var tail := "moves" + [Space] + moves;
    var mid := "startpos" + [Space] + tail;
    assert Render(PositionMoves(moves)) == "position" + [Space] + mid;
    SplitAfterToken("moves", moves);
    SplitAfterToken("startpos", tail);
    SplitAfterToken("position", mid);
    ConcatAssoc4(["position"], ["startpos"], ["moves"], Split(moves));
  }

  lemma ParsePositionWords(m: seq<string>)
    ensures ParseWords(["position"] + ["startpos"] + ["moves"] + m) == Some(PositionMoves(Join(m)))
  {
    var t := ["position"] + ["startpos"] + ["moves"] + m;
    assert t[0] == "position" && t[1] == "startpos" && t[2] == "moves";
    assert t[3..] == m;
  }

  lemma PositionRoundTrip(moves: string)
    ensures Parse(Render(PositionMoves(moves))) == Some(PositionMoves(moves))
  {
    PositionWords(moves);
    ParsePositionWords(Split(moves));
    JoinSplit(moves);
  }

  /** The words of a rendered search command. */
  lemma GoWords(ms: nat)
    ensures Split(Render(GoMovetime(ms))) == ["go"] + ["movetime"] + [Decimal(ms)]
  {
    var digits := Decimal(ms);
    assert Space !in digits by {
      assert forall i :: 0 <= i < |digits| ==> IsDigit(digits[i]);
    }
    var tail := "movetime" + [Space] + digits;
    assert Render(GoMovetime(ms)) == "go" + [Space] + tail;
    SplitAfterToken("movetime", digits);
    SplitAfterToken("go", tail);
    SplitNoSpace(digits);
    ConcatAssoc(["go"], ["movetime"], [digits]);
  }

  lemma GoRoundTrip(ms: nat)
    ensures Parse(Render(GoMovetime(ms))) == Some(GoMovetime(ms))
  {
    GoWords(ms);
    var t := ["go"] + ["movetime"] + [Decimal(ms)];
    assert t[0] == "go" && t[1] == "movetime" && t[2] == Decimal(ms) && |t| == 3;
    DecimalRoundTrip(ms);
  }

  /** Every well-formed command the engines post reads back as itself. */
  lemma RenderRoundTrip(c: Command)
    requires WellFormed(c)
    ensures Parse(Render(c)) == Some(c)
  {
    match c
    case Uci =>
    case UciNewGame =>
    case IsReady =>
    case SetOption(name, value) => SetOptionRoundTrip(name, value);
    case PositionMoves(moves) => PositionRoundTrip(moves);
    case GoMovetime(ms) => GoRoundTrip(ms);
  }

  /** The first word of every posted line is the command's keyword, the
      word a reader dispatches on. */
  lemma RenderFirstWord(c: Command)
    ensures Keyword(c) != [] && Space !in Keyword(c)
    ensures Split(Render(c))[0] == Keyword(c)
  {
    match c
    case Uci => SplitNoSpace("uci");
    case UciNewGame => SplitNoSpace("ucinewgame");
    case IsReady => SplitNoSpace("isready");
    case SetOption(name, value) =>
      SetOptionWords(name, value);
      assert (["setoption"] + ["name"] + Split(name) + ["value"] + Split(value))[0] == "setoption";
    case PositionMoves(moves) =>
      PositionWords(moves);
      assert (["position"] + ["startpos"] + ["moves"] + Split(moves))[0] == "position";
    case GoMovetime(ms) =>
      GoWords(ms);
  }

  /** The commands posted on `uciok`, in order: analysis mode on, analysis
      contempt off, a new game, and the readiness question. */
  function Handshake(): (cmds: seq<Command>)
    ensures |cmds| == 4 && cmds[3] == IsReady
    ensures forall i :: 0 <= i < |cmds| ==> WellFormed(cmds[i])
  {
    var cmds := [SetOption("UCI_AnalyseMode", "true"), SetOption("Analysis Contempt", "Off"), UciNewGame, IsReady];
    AnalyseModeWellFormed();
    ContemptWellFormed();
    cmds
  }

  /** `sendPosition(moves)`: the position from the start with the given moves,
      then a two-second search. */
  function SendPosition(moves: string): (cmds: seq<Command>)
    ensures |cmds| == 2
    ensures Parse(Render(cmds[0])) == Some(PositionMoves(moves))
    ensures Parse(Render(cmds[1])) == Some(GoMovetime(2000))
  {
    PositionRoundTrip(moves);
    GoRoundTrip(2000);
    [PositionMoves(moves), GoMovetime(2000)]
  }

  lemma AnalyseModeWellFormed()
    ensures WellFormed(SetOption("UCI_AnalyseMode", "true"))
  {
    SplitNoSpace("UCI_AnalyseMode");
  }

  /** A name without the letter `v` has no word `value`. */
  lemma NameWithoutV(name: string, value: string)
    requires 'v' !in name
    ensures WellFormed(SetOption(name, value))
  {
    SplitPiecesFrom(name);
    assert 'v' in "value";
  }

  lemma ContemptWellFormed()
    ensures WellFormed(SetOption("Analysis Contempt", "Off"))
  {
    NameWithoutV("Analysis Contempt", "Off");
  }

  /** The handshake posted on `uciok`, as text lines. */
  lemma HandshakeText()
    ensures Render(Handshake()[0]) == "setoption name UCI_AnalyseMode value true"
    ensures Render(Handshake()[1]) == "setoption name Analysis Contempt value Off"
    ensures Render(Handshake()[2]) == "ucinewgame"
    ensures Render(Handshake()[3]) == "isready"
  {
    var h := Handshake();
    assert h == [SetOption("UCI_AnalyseMode", "true"), SetOption("Analysis Contempt", "Off"), UciNewGame, IsReady];
    AnalyseModeText();
    ContemptText();
  }

  lemma AnalyseModeText()
    ensures Render(SetOption("UCI_AnalyseMode", "true")) == "setoption name UCI_AnalyseMode value true"
  {
  }

  lemma ContemptText()
    ensures Render(SetOption("Analysis Contempt", "Off")) == "setoption name Analysis Contempt value Off"
  {
  }

  /** The search commands posted on `readyok`, as text lines. */
  lemma SearchText()
    ensures Render(GoMovetime(1500)) == "go movetime 1500"
    ensures Render(GoMovetime(1000)) == "go movetime 1000"
  {
  }

  /** The two commands of `sendPosition`, as text lines. */
  lemma PositionText(moves: string)
    ensures Render(GoMovetime(2000)) == "go movetime 2000"
    ensures Render(PositionMoves(moves)) == "position startpos moves " + moves
  {
  }

  /** The one field of engine state the handlers keep: the last best move
      taken from the engine, unset until the first one. */
  datatype EngineState = EngineState(bestMove: Option<string>)

  /** `bestMove` before any engine output: `null` in one file, never assigned
      (so `undefined`) in the other, and in both cases unequal to every string. */
  const Initial: EngineState := EngineState(None)

  /** The first command posted on construction. */
  const Boot: seq<Command> := [Uci]

  /** The brush `engine-move.ts` draws its hint with. */
  const HintBrush: string := "paleBlue"

  /** What a handler asks the board to do. */
  datatype BoardAction =
    | MovePiece(from: string, to: string)
    | DrawMove(orig: string, dest: string, brush: string)

  /** The effect of one line of engine output: the new state, the commands
      posted to the engine in order, and the board action if any. */
  datatype Reaction = Reaction(state: EngineState, posted: seq<Command>, board: Option<BoardAction>)

  /** The best-move word of a line `bestmove <x> …`, when the line has a
      non-empty second word: `uciString[0] === 'bestmove' && uciString[1]`. */
  function BestMoveWord(line: string): (r: Option<string>)
    ensures r.Some? ==> r.value != [] && Space !in r.value
    ensures r.Some? ==> StartsWithToken(line, "bestmove")
    ensures r.Some? ==> "bestmove " + r.value <= line
  {
    var t := Split(line);
    FirstPieceIs(line, "bestmove");
    SplitPiecesSpaceFree(line);
    if t[0] == "bestmove" && |t| >= 2 && t[1] != [] then Some(t[1]) else None
  }

  /** A line `bestmove <x>`, optionally followed by a space and more, carries
      the best-move word `x`. */
  lemma BestMoveWordOf(x: string, rest: string)
    requires x != [] && Space !in x
    requires rest == [] || rest[0] == Space
    ensures BestMoveWord("bestmove " + x + rest) == Some(x)
  {
    var tail := x + rest;
    assert "bestmove " == "bestmove" + [Space];
    ConcatAssoc("bestmove" + [Space], x, rest);
    SplitAfterToken("bestmove", tail);
    FirstPieceIs(tail, x);
  }

  /** A `bestmove` line with no second word, or an empty one, carries none. */
  lemma BestMoveWordMissing(line: string)
    requires line == "bestmove" || line == "bestmove " || "bestmove  " <= line
    ensures BestMoveWord(line) == None
  {
    if line == "bestmove" {
      SplitNoSpace(line);
    } else {
      var tail := line[9..];
      assert line == "bestmove" + [Space] + tail;
      SplitAfterToken("bestmove", tail);
      if tail != [] {
        assert tail[0] == Space;
      }
    }
  }
}
