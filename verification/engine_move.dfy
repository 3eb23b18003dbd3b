/**
 The `Engine` class of `utils/engine-move.ts`: the engine only advises. Each
 line of engine output is dispatched on its first word, returning after the
 first match; a new best move is stored and drawn on the board as a pale blue
 arrow, whoever is to move.
 */
module EngineMove {
  import opened Common
  import opened Text
  import opened EngineProtocol

  /** The search budget requested once the engine is ready, in milliseconds. */
  const ReadyMovetime: nat := 1000

  /** Construction posts `uci` and leaves the best move unset. */
  const Start: Reaction := Reaction(Initial, Boot, None)

  /** Construction posts exactly the line `uci`, which reads back as the `uci`
      command, and touches neither the board nor the unset best move. */
  lemma StartPostsUci()
    ensures |Start.posted| == 1 && Render(Start.posted[0]) == "uci"
    ensures Parse(Render(Start.posted[0])) == Some(Uci)
    ensures Start.state.bestMove == None && Start.board == None
  {
  }

  /** `handleEngineStdout` for one line. */
  function HandleLine(st: EngineState, line: string): (r: Reaction)
    ensures StartsWithToken(line, "uciok") ==> r == Reaction(st, Handshake(), None)
    ensures StartsWithToken(line, "readyok") ==> r == Reaction(st, [GoMovetime(ReadyMovetime)], None)
    ensures !StartsWithToken(line, "uciok") && !StartsWithToken(line, "readyok") ==> r.posted == []
    ensures r.state != st ==>
      && r.state.bestMove.Some?
      && r.state.bestMove.value != []
      && "bestmove " + r.state.bestMove.value <= line
    ensures r.board.Some? <==> r.state != st
    ensures r.board.Some? ==>
      var best := r.state.bestMove.value;
      r.board.value == DrawMove(Slice(best, 0, 2), Slice(best, 2, 4), HintBrush)
  {
    var t := Split(line);
    FirstPieceIs(line, "uciok");
    FirstPieceIs(line, "readyok");
    FirstPieceIs(line, "bestmove");
    if t[0] == "uciok" then
      Reaction(st, Handshake(), None)
    else if t[0] == "readyok" then
      Reaction(st, [GoMovetime(ReadyMovetime)], None)
    else
      var word := BestMoveWord(line);
      if word.Some? && word != st.bestMove then
        var best := word.value;
        Reaction(EngineState(word), [], Some(DrawMove(Slice(best, 0, 2), Slice(best, 2, 4), HintBrush)))
      else
        Reaction(st, [], None)
  }

  /** `bestmove <x> …` with a new `x`: `x` is stored and an arrow is drawn from
      the first two to the next two characters of `x`, with no turn check. */
  lemma BestMoveDrawn(st: EngineState, x: string, rest: string)
    requires x != [] && Space !in x
    requires rest == [] || rest[0] == Space
    requires st.bestMove != Some(x)
    ensures HandleLine(st, "bestmove " + x + rest)
         == Reaction(EngineState(Some(x)), [], Some(DrawMove(Slice(x, 0, 2), Slice(x, 2, 4), HintBrush)))
  {
    BestMoveWordOf(x, rest);
  }

  /** The best move starts unset, so the first valid `bestmove` line always
      draws. */
  lemma FirstBestMoveDraws(x: string, rest: string)
    requires x != [] && Space !in x
    requires rest == [] || rest[0] == Space
    ensures HandleLine(Start.state, "bestmove " + x + rest).board.Some?
  {
    BestMoveDrawn(Start.state, x, rest);
  }

  /** `bestmove <x> …` with the stored `x` draws nothing. */
  lemma BestMoveRepeated(st: EngineState, x: string, rest: string)
    requires x != [] && Space !in x
    requires rest == [] || rest[0] == Space
    requires st.bestMove == Some(x)
    ensures HandleLine(st, "bestmove " + x + rest) == Reaction(st, [], None)
  {
    BestMoveWordOf(x, rest);
  }

  /** A `bestmove` line without a second word, or with an empty one, changes
      nothing and posts nothing. */
  lemma BestMoveMissing(st: EngineState, line: string)
    requires line == "bestmove" || line == "bestmove " || "bestmove  " <= line
    ensures HandleLine(st, line) == Reaction(st, [], None)
  {
    BestMoveWordMissing(line);
    FirstPieceIs(line, "uciok");
    FirstPieceIs(line, "readyok");
  }

  /** A line whose first word is none of `uciok`, `readyok`, `bestmove` is
      ignored. */
  lemma OtherLineIgnored(st: EngineState, line: string)
    requires !StartsWithToken(line, "uciok") && !StartsWithToken(line, "readyok")
    requires !StartsWithToken(line, "bestmove")
    ensures HandleLine(st, line) == Reaction(st, [], None)
  {
  }

  /** Handling the same line twice: the second time leaves the state as the
      first left it, posts the same commands and draws nothing. */
  lemma HandleLineIdempotent(st: EngineState, line: string)
    ensures var r1 := HandleLine(st, line);
      var r2 := HandleLine(r1.state, line);
      r2.state == r1.state && r2.posted == r1.posted && r2.board == None
  {
  }
}
