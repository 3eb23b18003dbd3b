/**
 The `Engine` class of `utils/engine.ts`: the engine plays black. Each line of
 engine output goes through three independent checks on its first word; a new
 best move is stored and, when it is black's turn, played on the board.
 */
module Engine {
  import opened Common
  import opened Text
  import opened EngineProtocol

  /** The search budget requested once the engine is ready, in milliseconds. */
  const ReadyMovetime: nat := 1500

  /** Construction posts `uci` and leaves the best move unset. */
  const Start: Reaction := Reaction(Initial, Boot, None)

  /** Construction posts exactly the line `uci`, which reads back as the `uci`
      command, and touches neither the board nor the unset best move. */
  lemma StartPostsUci()
    ensures |Start.posted| == 1 && Render(Start.posted[0]) == "uci"
    ensures Parse(Render(Start.posted[0])) == Some(Uci)
    ensures Start.state.bestMove == None && Start.board == None
  {
  }

  /** `handleEngineStdout` for one line, with the board's turn color at that
      moment. */
  function HandleLine(st: EngineState, line: string, turn: Color): (r: Reaction)
    ensures StartsWithToken(line, "uciok") ==> r == Reaction(st, Handshake(), None)
    ensures StartsWithToken(line, "readyok") ==> r == Reaction(st, [GoMovetime(ReadyMovetime)], None)
    ensures !StartsWithToken(line, "uciok") && !StartsWithToken(line, "readyok") ==> r.posted == []
    ensures r.state != st ==>
      && r.state.bestMove.Some?
      && r.state.bestMove.value != []
      && "bestmove " + r.state.bestMove.value <= line
    ensures r.board.Some? <==> r.state != st && turn == Black
    ensures r.board.Some? ==>
      var best := r.state.bestMove.value;
      r.board.value == MovePiece(Slice(best, 0, 2), Slice(best, 2, 4))
  {
    var t := Split(line);
    FirstPieceIs(line, "uciok");
    FirstPieceIs(line, "readyok");
    FirstPieceIs(line, "bestmove");
    var onUciOk := if t[0] == "uciok" then Handshake() else [];
    var onReadyOk := if t[0] == "readyok" then [GoMovetime(ReadyMovetime)] else [];
    var posted := onUciOk + onReadyOk;
    var word := BestMoveWord(line);
    if word.Some? && word != st.bestMove then
      var best := word.value;
      var board := if turn == Black then Some(MovePiece(Slice(best, 0, 2), Slice(best, 2, 4))) else None;
      Reaction(EngineState(word), posted, board)
    else
      Reaction(st, posted, None)
  }

  /** `bestmove <x> …` with a new `x`: `x` is stored, nothing is posted, and on
      black's turn the piece moves between the first two and the next two
      characters of `x`, which for a move of four or more characters are its
      from- and to-squares. */
  lemma BestMoveAdopted(st: EngineState, x: string, rest: string, turn: Color)
    requires x != [] && Space !in x
    requires rest == [] || rest[0] == Space
    requires st.bestMove != Some(x)
    ensures var r := HandleLine(st, "bestmove " + x + rest, turn);
      && r.state == EngineState(Some(x))
      && r.posted == []
      && r.board == (if turn == Black then Some(MovePiece(Slice(x, 0, 2), Slice(x, 2, 4))) else None)
    ensures |x| >= 4 ==> Slice(x, 0, 2) + Slice(x, 2, 4) == x[..4]
  {
    BestMoveWordOf(x, rest);
    if |x| >= 4 {
      SliceSquares(x);
    }
  }

  /** The best move starts unset, so on black's turn the first valid
      `bestmove` line always moves a piece. */
  lemma FirstBestMoveMoves(x: string, rest: string)
    requires x != [] && Space !in x
    requires rest == [] || rest[0] == Space
    ensures HandleLine(Start.state, "bestmove " + x + rest, Black).board.Some?
  {
    BestMoveAdopted(Start.state, x, rest, Black);
  }

  /** `bestmove <x> …` with the stored `x` changes nothing and moves nothing. */
  lemma BestMoveRepeated(st: EngineState, x: string, rest: string, turn: Color)
    requires x != [] && Space !in x
    requires rest == [] || rest[0] == Space
    requires st.bestMove == Some(x)
    ensures HandleLine(st, "bestmove " + x + rest, turn) == Reaction(st, [], None)
  {
    BestMoveWordOf(x, rest);
  }

  /** A `bestmove` line without a second word, or with an empty one, changes
      nothing and posts nothing. */
  lemma BestMoveMissing(st: EngineState, line: string, turn: Color)
    requires line == "bestmove" || line == "bestmove " || "bestmove  " <= line
    ensures HandleLine(st, line, turn) == Reaction(st, [], None)
  {
    BestMoveWordMissing(line);
  }

  /** A line whose first word is none of `uciok`, `readyok`, `bestmove` is
      ignored. */
  lemma OtherLineIgnored(st: EngineState, line: string, turn: Color)
    requires !StartsWithToken(line, "uciok") && !StartsWithToken(line, "readyok")
    requires !StartsWithToken(line, "bestmove")
    ensures HandleLine(st, line, turn) == Reaction(st, [], None)
  {
  }

  /** Handling the same line twice: the second time leaves the state as the
      first left it, posts the same commands and moves nothing, whatever the
      turn colors. */
  lemma HandleLineIdempotent(st: EngineState, line: string, turn1: Color, turn2: Color)
    ensures var r1 := HandleLine(st, line, turn1);
      var r2 := HandleLine(r1.state, line, turn2);
      r2.state == r1.state && r2.posted == r1.posted && r2.board == None
  {
  }
}
