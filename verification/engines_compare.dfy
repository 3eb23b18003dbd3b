/**
 How the two engine handlers relate: they track the best move identically and
 post the same commands except for the search budget after `readyok`; the
 playing engine moves exactly where the advising engine draws, but only on
 black's turn.
 */
module EnginesCompare {
  import opened Common
  import opened Text
  import opened EngineProtocol
  import Engine
  import EngineMove

  lemma HandlersAgree(st: EngineState, line: string, turn: Color)
    ensures Engine.HandleLine(st, line, turn).state == EngineMove.HandleLine(st, line).state
    ensures !StartsWithToken(line, "readyok") ==>
      Engine.HandleLine(st, line, turn).posted == EngineMove.HandleLine(st, line).posted
    ensures StartsWithToken(line, "readyok") ==>
      && Engine.HandleLine(st, line, turn).posted == [GoMovetime(1500)]
      && EngineMove.HandleLine(st, line).posted == [GoMovetime(1000)]
    ensures Engine.HandleLine(st, line, turn).board.Some? <==>
      EngineMove.HandleLine(st, line).board.Some? && turn == Black
    ensures Engine.HandleLine(st, line, turn).board.Some? ==>
      var m := Engine.HandleLine(st, line, turn).board.value;
      var a := EngineMove.HandleLine(st, line).board.value;
      m.from == a.orig && m.to == a.dest
  {
  }
}
