/**
 * One battle: the GameState record, start_level, apply_damage and the part of
 * take_turn that plays a turn on a stored state.
 */
module Game {
  import opened Wrappers
  import opened Matchup
  import opened Catalog
  import opened Pool

  /** The value of every field of a GameState at one moment (what `asdict(state)` sends back). */
  datatype Snapshot = Snapshot(
    level: int,
    playerHp: int,
    playerHpMax: int,
    cpuHp: int,
    cpuHpMax: int,
    cpuChoices: seq<Opponent>,
    lastCpuChoice: Option<Opponent>,
    lastResult: string,
    gameOver: bool,
    levelUp: bool)

  /** The mutable GameState record the session map holds. */
  class GameState {
    var level: int
    var playerHp: int
    var playerHpMax: int
    var cpuHp: int
    var cpuHpMax: int
    var cpuChoices: seq<Opponent>
    var lastCpuChoice: Option<Opponent>
    var lastResult: string
    var gameOver: bool
    var levelUp: bool

    /** The dataclass constructor: every field from the given values. */
    constructor (s: Snapshot)
      ensures View() == s
    {
      level, playerHp, playerHpMax := s.level, s.playerHp, s.playerHpMax;
      cpuHp, cpuHpMax, cpuChoices := s.cpuHp, s.cpuHpMax, s.cpuChoices;
      lastCpuChoice, lastResult := s.lastCpuChoice, s.lastResult;
      gameOver, levelUp := s.gameOver, s.levelUp;
    }

    function View(): Snapshot
      reads this
    {
      Snapshot(level, playerHp, playerHpMax, cpuHp, cpuHpMax, cpuChoices,
               lastCpuChoice, lastResult, gameOver, levelUp)
    }
  }

  function Max(a: int, b: int): int {
    if a < b then b else a
  }

  /**
   * start_level: a fresh level whose opponent has full hit points 2 + level,
   * the player's hit points as given, a new opponent pool, and no turn played yet.
   */
  function StartLevel(level: int, playerHp: int, playerHpMax: int, objects: seq<Opponent>, draw: seq<nat>): (r: Snapshot)
    requires ValidDraw(draw, |objects|)
    ensures r.level == level && r.cpuHp == r.cpuHpMax == 2 + level
    ensures r.playerHp == playerHp && r.playerHpMax == playerHpMax
    ensures r.lastCpuChoice == None && r.lastResult == ""
    ensures !r.gameOver && !r.levelUp
    ensures |r.cpuChoices| == PoolSize(|objects|) && multiset(r.cpuChoices) <= multiset(objects)
  {
    var cpuHpMax := 2 + level;
    Snapshot(level, playerHp, playerHpMax, cpuHpMax, cpuHpMax, RandomCpuChoices(objects, draw),
             None, "", false, false)
  }

  /**
   * apply_damage on a value: "tie" costs both sides 1, "win" costs the opponent 3,
   * anything else costs the player 3. No other field changes.
   */
  function Damaged(s: Snapshot, result: string): (r: Snapshot)
    ensures r == s.(playerHp := r.playerHp, cpuHp := r.cpuHp)
    ensures r.playerHp <= s.playerHp && r.cpuHp <= s.cpuHp
    ensures (s.playerHp + s.cpuHp) - (r.playerHp + r.cpuHp) == if result == "tie" then 2 else 3
  {
    if result == "tie" then s.(playerHp := s.playerHp - 1, cpuHp := s.cpuHp - 1)
    else if result == "win" then s.(cpuHp := s.cpuHp - 3)
    else s.(playerHp := s.playerHp - 3)
  }

  /** Which side loses how much, for each outcome compare_moves can give. */
  lemma DamageByResult(s: Snapshot, result: string)
    ensures result == "tie" ==> Damaged(s, result).playerHp == s.playerHp - 1 && Damaged(s, result).cpuHp == s.cpuHp - 1
    ensures result == "win" ==> Damaged(s, result).playerHp == s.playerHp && Damaged(s, result).cpuHp == s.cpuHp - 3
    ensures result != "tie" && result != "win" ==>
              Damaged(s, result).playerHp == s.playerHp - 3 && Damaged(s, result).cpuHp == s.cpuHp
  {
  }

  /** apply_damage, in place. */
  method ApplyDamage(state: GameState, result: string)
    modifies state
    ensures state.View() == Damaged(old(state.View()), result)
  {
    if result == "tie" {
      state.playerHp := state.playerHp - 1;
      state.cpuHp := state.cpuHp - 1;
    } else if result == "win" {
      state.cpuHp := state.cpuHp - 3;
    } else {
      state.playerHp := state.playerHp - 3;
    }
  }

  /**
   * `random.choice(state.cpu_choices)`: the draw is the input `pick`; any pick
   * names an entry of the pool, and pick k names entry k.
   */
  function CpuChoice(s: Snapshot, pick: nat): (c: Opponent)
    requires s.cpuChoices != []
    ensures c in s.cpuChoices
    ensures pick < |s.cpuChoices| ==> c == s.cpuChoices[pick]
  {
    s.cpuChoices[pick % |s.cpuChoices|]
  }

  /** The state once the turn is fought and recorded, before the defeat and level checks. */
  function Fought(s: Snapshot, move: string, pick: nat): Snapshot
    requires IsMove(move) && s.cpuChoices != []
  {
    MovesAreTableKeys();
    var cpu := CpuChoice(s, pick);
    var result := CompareMoves(move, cpu.kind);
    Damaged(s, result).(lastCpuChoice := Some(cpu), lastResult := result, levelUp := false)
  }

  /** The turn takes the player's last hit points. */
  predicate Defeats(s: Snapshot, move: string, pick: nat)
    requires IsMove(move) && s.cpuChoices != []
  {
    Fought(s, move, pick).playerHp <= 0
  }

  /** The player survives and the opponent's hit points are gone. */
  predicate Clears(s: Snapshot, move: string, pick: nat)
    requires IsMove(move) && s.cpuChoices != []
  {
    Fought(s, move, pick).playerHp > 0 && Fought(s, move, pick).cpuHp <= 0
  }

  /**
   * The turn on a state that is not over (take_turn after its guards): fight,
   * then defeat (hit points clamped to 0) before level clear, which moves to a
   * fresh next-level state that keeps the player's hit points and this turn's result.
   */
  function Resolve(s: Snapshot, move: string, pick: nat, catalog: seq<Opponent>, draw: seq<nat>): (r: Snapshot)
    requires IsMove(move) && s.cpuChoices != [] && ValidDraw(draw, |catalog|)
    ensures r.lastCpuChoice == Some(CpuChoice(s, pick))
    ensures r.lastResult == CompareMoves(move, CpuChoice(s, pick).kind)
    ensures r.playerHpMax == s.playerHpMax && r.playerHp >= 0
    ensures r.level == if r.levelUp then s.level + 1 else s.level
  {
    var f := Fought(s, move, pick);
    if f.playerHp <= 0 then
      f.(playerHp := Max(f.playerHp, 0), gameOver := true)
    else if f.cpuHp <= 0 then
      StartLevel(f.level + 1, f.playerHp, f.playerHpMax, catalog, draw)
        .(lastCpuChoice := f.lastCpuChoice, lastResult := f.lastResult, levelUp := true)
    else
      f
  }

  /** Defeat takes priority: even when the opponent falls too, the player is at 0, the game is over and the level stays. */
  lemma DefeatHasPriority(s: Snapshot, move: string, pick: nat, catalog: seq<Opponent>, draw: seq<nat>)
    requires IsMove(move) && s.cpuChoices != [] && ValidDraw(draw, |catalog|)
    requires Defeats(s, move, pick)
    ensures var r, f := Resolve(s, move, pick, catalog, draw), Fought(s, move, pick);
      && r.playerHp == 0 && r.gameOver && !r.levelUp
      && r.level == s.level && r.cpuHp == f.cpuHp && r.cpuHpMax == s.cpuHpMax
      && r.cpuChoices == s.cpuChoices && r.playerHpMax == s.playerHpMax
      && r.lastResult == f.lastResult && r.lastCpuChoice == f.lastCpuChoice
  {
  }

  /**
   * A cleared level: the next level with a full opponent of 2 + level hit points,
   * the player's hit points as the turn left them, this turn's opponent and
   * result, a fresh pool, and the level-up flag.
   */
  lemma ClearStartsNextLevel(s: Snapshot, move: string, pick: nat, catalog: seq<Opponent>, draw: seq<nat>)
    requires IsMove(move) && s.cpuChoices != [] && ValidDraw(draw, |catalog|)
    requires Clears(s, move, pick)
    ensures var r, f := Resolve(s, move, pick, catalog, draw), Fought(s, move, pick);
      && r.level == s.level + 1 && r.cpuHp == r.cpuHpMax == 2 + r.level
      && r.playerHp == f.playerHp && r.playerHpMax == s.playerHpMax
      && r.lastCpuChoice == Some(CpuChoice(s, pick))
      && r.lastResult == CompareMoves(move, CpuChoice(s, pick).kind)
      && r.levelUp && !r.gameOver
      && r.cpuChoices == RandomCpuChoices(catalog, draw)
  {
  }

  /** An ordinary turn: both sides still standing, same level and pool, the turn's outcome recorded. */
  lemma OrdinaryTurn(s: Snapshot, move: string, pick: nat, catalog: seq<Opponent>, draw: seq<nat>)
    requires IsMove(move) && s.cpuChoices != [] && ValidDraw(draw, |catalog|)
    requires !Defeats(s, move, pick) && !Clears(s, move, pick)
    ensures var r := Resolve(s, move, pick, catalog, draw);
      && r.playerHp > 0 && r.cpuHp > 0 && !r.levelUp && r.gameOver == s.gameOver
      && r.level == s.level && r.cpuChoices == s.cpuChoices
      && r.lastResult == CompareMoves(move, CpuChoice(s, pick).kind)
      && r == Damaged(s, r.lastResult).(lastCpuChoice := r.lastCpuChoice, lastResult := r.lastResult, levelUp := false)
  {
  }

  /** A turn sets the level-up flag exactly when it clears the level, and ends the game exactly when it defeats the player. */
  lemma ResolveFlags(s: Snapshot, move: string, pick: nat, catalog: seq<Opponent>, draw: seq<nat>)
    requires IsMove(move) && s.cpuChoices != [] && ValidDraw(draw, |catalog|)
    ensures Resolve(s, move, pick, catalog, draw).levelUp <==> Clears(s, move, pick)
    ensures !s.gameOver ==> (Resolve(s, move, pick, catalog, draw).gameOver <==> Defeats(s, move, pick))
  {
  }

  /**
   * What holds of every state a session can be seen in: the level formula for
   * the opponent's maximum, hit points within their bounds (never negative),
   * the game over exactly when the player is at 0, a live opponent in a live
   * game, and the last-turn fields empty together.
   */
  predicate Consistent(s: Snapshot) {
    && s.level >= 1
    && s.cpuHpMax == 2 + s.level
    && 0 <= s.cpuHp <= s.cpuHpMax
    && 0 <= s.playerHp <= s.playerHpMax
    && (s.gameOver <==> s.playerHp == 0)
    && (!s.gameOver ==> s.cpuHp > 0)
    && (s.gameOver ==> !s.levelUp)
    && (s.levelUp ==> s.cpuHp == s.cpuHpMax)
    && |s.cpuChoices| <= 3
    && (s.lastCpuChoice == None <==> s.lastResult == "")
    && (s.lastResult == "" || s.lastResult == "tie" || s.lastResult == "win" || s.lastResult == "loss")
  }

  /** A level started with the player alive is consistent. */
  lemma StartLevelConsistent(level: int, playerHp: int, playerHpMax: int, objects: seq<Opponent>, draw: seq<nat>)
    requires ValidDraw(draw, |objects|)
    requires level >= 1 && 0 < playerHp <= playerHpMax
    ensures Consistent(StartLevel(level, playerHp, playerHpMax, objects, draw))
  {
  }

  /** Every turn on a live consistent state leaves a consistent state. */
  lemma ResolveConsistent(s: Snapshot, move: string, pick: nat, catalog: seq<Opponent>, draw: seq<nat>)
    requires IsMove(move) && s.cpuChoices != [] && ValidDraw(draw, |catalog|)
    requires Consistent(s) && !s.gameOver
    ensures Consistent(Resolve(s, move, pick, catalog, draw))
  {
    DamageByResult(s, Fought(s, move, pick).lastResult);
  }

  /** Lines 138-145 of take_turn on the stored state: draw, compare, damage, and record the turn. */
  method Fight(state: GameState, move: string, pick: nat)
    requires IsMove(move) && state.cpuChoices != []
    modifies state
    ensures state.View() == Fought(old(state.View()), move, pick)
  {
    MovesAreTableKeys();
    var cpuChoice := state.cpuChoices[pick % |state.cpuChoices|];
    var result := CompareMoves(move, cpuChoice.kind);
    ApplyDamage(state, result);
    state.lastCpuChoice := Some(cpuChoice);
    state.lastResult := result;
    state.levelUp := false;
  }

  /**
   * Lines 153-159 of take_turn: the old state takes the level increment and
   * the flag, and a new state for that level carries the player's hit points
   * and this turn's opponent and result.
   */
  method AdvanceLevel(state: GameState, catalog: seq<Opponent>, draw: seq<nat>) returns (next: GameState)
    requires ValidDraw(draw, |catalog|)
    modifies state
    ensures state.View() == old(state.View()).(level := old(state.level) + 1, levelUp := true)
    ensures fresh(next)
    ensures next.View() == StartLevel(old(state.level) + 1, state.playerHp, state.playerHpMax, catalog, draw)
                             .(lastCpuChoice := state.lastCpuChoice, lastResult := state.lastResult, levelUp := true)
  {
    state.level := state.level + 1;
    state.levelUp := true;
    next := new GameState(StartLevel(state.level, state.playerHp, state.playerHpMax, catalog, draw));
    next.lastCpuChoice := state.lastCpuChoice;
    next.lastResult := state.lastResult;
    next.levelUp := true;
  }

  /**
   * Lines 138-161 of take_turn on the stored state: the state is changed in
   * place, and on a cleared level a new state for the next level is returned
   * in its place. The old state, no longer stored, keeps the level increment
   * and the flag.
   */
  method PlayTurn(state: GameState, move: string, pick: nat, catalog: seq<Opponent>, draw: seq<nat>)
    returns (current: GameState)
    requires IsMove(move) && state.cpuChoices != [] && ValidDraw(draw, |catalog|)
    modifies state
    ensures current.View() == Resolve(old(state.View()), move, pick, catalog, draw)
    ensures current == state <==> !Clears(old(state.View()), move, pick)
    ensures current != state ==> fresh(current)
    ensures current != state ==>
              && state.level == old(state.level) + 1 && state.levelUp && state.gameOver == old(state.gameOver)
              && state.playerHp == current.playerHp && state.playerHpMax == old(state.playerHpMax)
              && state.cpuHp <= 0 && state.cpuHpMax == old(state.cpuHpMax) && state.cpuChoices == old(state.cpuChoices)
              && state.lastCpuChoice == current.lastCpuChoice && state.lastResult == current.lastResult
  {
    ghost var s := state.View();
    Fight(state, move, pick);
    if state.playerHp <= 0 {
      state.playerHp := Max(state.playerHp, 0);
      state.gameOver := true;
      return state;
    }
    if state.cpuHp <= 0 {
      current := AdvanceLevel(state, catalog, draw);
      return;
    }
    return state;
  }
}
