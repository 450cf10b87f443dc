/** The matchup rule of backend/app.py: which move beats which opponent type. */
module Matchup {

  /** The moves a player may send with a turn. */
  const Moves: set<string> := {"rock", "paper", "scissors"}

  /** For every move, the single opponent type it defeats. */
  const WinningPairs: map<string, string> :=
    map["rock" := "scissors", "paper" := "rock", "scissors" := "paper"]

  predicate IsMove(m: string) {
    m in Moves
  }

  /** Reference relation, written out pair by pair: attacker `a` defeats defender `b`. */
  predicate Beats(a: string, b: string) {
    || (a == "rock" && b == "scissors")
    || (a == "paper" && b == "rock")
    || (a == "scissors" && b == "paper")
  }

  /**
   * compare_moves: equal labels tie; otherwise the move wins exactly when the
   * opponent's type is the one the move defeats, and loses in every other case.
   * The source looks the move up in its table only after the tie test, so a move
   * outside the table is acceptable only when it ties.
   */
  function CompareMoves(playerMove: string, cpuType: string): (r: string)
    requires playerMove == cpuType || playerMove in WinningPairs
    ensures r == "tie" || r == "win" || r == "loss"
    ensures r == "tie" <==> playerMove == cpuType
    ensures r == "win" <==> playerMove != cpuType && Beats(playerMove, cpuType)
  {
    if playerMove == cpuType then "tie"
    else if WinningPairs[playerMove] == cpuType then "win"
    else "loss"
  }

  /** Every valid move can be looked up in the table, so CompareMoves accepts it against any type. */
  lemma MovesAreTableKeys()
    ensures WinningPairs.Keys == Moves
  {
  }

  /**
   * For two different moves, exactly one of them wins against the other and
   * the other loses: the relation is asymmetric and connected on the moves.
   */
  lemma DistinctMovesOneWins(a: string, b: string)
    requires IsMove(a) && IsMove(b) && a != b
    ensures (CompareMoves(a, b) == "win") != (CompareMoves(b, a) == "win")
    ensures CompareMoves(a, b) == "win" <==> CompareMoves(b, a) == "loss"
  {
  }

  /** An opponent type outside the three moves (a "lizard" row in the catalog, say) always beats the player. */
  lemma UnknownTypeLoses(move: string, cpuType: string)
    requires IsMove(move) && !IsMove(cpuType)
    ensures CompareMoves(move, cpuType) == "loss"
  {
  }
}
