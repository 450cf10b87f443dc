/**
 * The session map of backend/app.py and the two requests that use it,
 * start_game and take_turn, with the HTTP layer replaced by results.
 */
module Server {
  import opened Wrappers
  import opened Matchup
  import opened Catalog
  import opened Pool
  import opened Game

  /** The hit points a player starts a game with, and their maximum. */
  const StartingHp: int := 15

  /** start_game's refusal: the catalog holds no opponent (HTTP 500 in the source). */
  datatype StartError = NoObjects

  /**
   * take_turn's refusals: an unknown session (404), a move other than the three
   * (400), and a level whose opponent pool is empty, where `random.choice`
   * raises before anything is changed.
   */
  datatype TurnError = InvalidSession | InvalidMove | EmptyPool

  /** The session map and a request's answer after one start_game. */
  datatype StartOutcome = StartOutcome(sessions: map<string, Snapshot>, response: Result<Snapshot, StartError>)

  /** The session map and a request's answer after one take_turn. */
  datatype TurnOutcome = TurnOutcome(sessions: map<string, Snapshot>, response: Result<Snapshot, TurnError>)

  /** start_game on the values of the sessions: a new level-1 game under the given id, unless the catalog is empty. */
  function StartGameSpec(views: map<string, Snapshot>, sid: string, catalog: seq<Opponent>, draw: seq<nat>): (o: StartOutcome)
    requires ValidDraw(draw, |catalog|)
    ensures o.response.Failure? <==> catalog == []
    ensures o.response.Failure? ==> o.sessions == views
    ensures o.response.Success? ==>
              && o.sessions.Keys == views.Keys + {sid}
              && o.sessions[sid] == o.response.value
              && o.response.value.level == 1
              && o.response.value.playerHp == o.response.value.playerHpMax == StartingHp
              && o.response.value.cpuHp == o.response.value.cpuHpMax == 3
              && 1 <= |o.response.value.cpuChoices| <= 3
    ensures o.response.Success? ==> o.response.value == StartLevel(1, StartingHp, StartingHp, catalog, draw)
    ensures forall id :: id in views && id != sid ==> id in o.sessions && o.sessions[id] == views[id]
  {
    if catalog == [] then StartOutcome(views, Failure(NoObjects))
    else
      var state := StartLevel(1, StartingHp, StartingHp, catalog, draw);
      StartOutcome(views[sid := state], Success(state))
  }

  /**
   * take_turn on the values of the sessions. An unknown session or an invalid
   * move is refused and a finished game is answered as it is, all without any
   * change; otherwise the turn is played on that session alone.
   */
  function TakeTurnSpec(views: map<string, Snapshot>, sid: string, move: string, pick: nat,
                        catalog: seq<Opponent>, draw: seq<nat>): (o: TurnOutcome)
    requires ValidDraw(draw, |catalog|)
    ensures o.response == Failure(InvalidSession) <==> sid !in views
    ensures o.response == Failure(InvalidMove) <==> sid in views && !IsMove(move)
    ensures o.response.Failure? ==> o.sessions == views
    ensures sid in views && IsMove(move) && views[sid].gameOver ==>
              o.sessions == views && o.response == Success(views[sid])
    ensures sid in views && IsMove(move) && !views[sid].gameOver ==>
              && (o.response == Failure(EmptyPool) <==> views[sid].cpuChoices == [])
              && (views[sid].cpuChoices != [] ==> o.response == Success(Resolve(views[sid], move, pick, catalog, draw)))
    ensures o.response.Success? ==> o.sessions == views[sid := o.response.value]
    ensures o.sessions.Keys == views.Keys
    ensures forall id :: id in views && id != sid ==> o.sessions[id] == views[id]
  {
    if sid !in views then TurnOutcome(views, Failure(InvalidSession))
    else if !IsMove(move) then TurnOutcome(views, Failure(InvalidMove))
    else if views[sid].gameOver then TurnOutcome(views, Success(views[sid]))
    else if views[sid].cpuChoices == [] then TurnOutcome(views, Failure(EmptyPool))
    else
      var next := Resolve(views[sid], move, pick, catalog, draw);
      TurnOutcome(views[sid := next], Success(next))
  }

  predicate AllConsistent(views: map<string, Snapshot>) {
    forall id :: id in views ==> Consistent(views[id])
  }

  /** Both requests keep every session consistent. */
  lemma StartGameKeepsConsistent(views: map<string, Snapshot>, sid: string, catalog: seq<Opponent>, draw: seq<nat>)
    requires ValidDraw(draw, |catalog|) && AllConsistent(views)
    ensures AllConsistent(StartGameSpec(views, sid, catalog, draw).sessions)
  {
    if catalog != [] {
      StartLevelConsistent(1, StartingHp, StartingHp, catalog, draw);
    }
  }

  lemma TakeTurnKeepsConsistent(views: map<string, Snapshot>, sid: string, move: string, pick: nat,
                                catalog: seq<Opponent>, draw: seq<nat>)
    requires ValidDraw(draw, |catalog|) && AllConsistent(views)
    ensures AllConsistent(TakeTurnSpec(views, sid, move, pick, catalog, draw).sessions)
  {
    if sid in views && IsMove(move) && !views[sid].gameOver && views[sid].cpuChoices != [] {
      ResolveConsistent(views[sid], move, pick, catalog, draw);
    }
  }

  /** One request to the server, with the id, the catalog and the random draws it will see. */
  datatype Request =
    | Start(sid: string, catalog: seq<Opponent>, draw: seq<nat>)
    | Turn(sid: string, move: string, pick: nat, catalog: seq<Opponent>, draw: seq<nat>)

  predicate WellDrawn(reqs: seq<Request>) {
    forall i :: 0 <= i < |reqs| ==> ValidDraw(reqs[i].draw, |reqs[i].catalog|)
  }

  /** The session values after serving `reqs` in order. */
  function Serve(views: map<string, Snapshot>, reqs: seq<Request>): map<string, Snapshot>
    requires WellDrawn(reqs)
    decreases |reqs|
  {
    if reqs == [] then views
    else
      var next := match reqs[0]
        case Start(sid, catalog, draw) => StartGameSpec(views, sid, catalog, draw).sessions
        case Turn(sid, move, pick, catalog, draw) => TakeTurnSpec(views, sid, move, pick, catalog, draw).sessions;
      Serve(next, reqs[1..])
  }

  /**
   * Every session reachable by any sequence of requests is consistent; in
   * particular no hit points are ever seen below zero. This rests on each
   * request's catalog being given: a catalog load that fails during a level-up
   * is not a request here.
   */
  lemma {:induction false} ServeKeepsConsistent(views: map<string, Snapshot>, reqs: seq<Request>)
    requires WellDrawn(reqs) && AllConsistent(views)
    ensures AllConsistent(Serve(views, reqs))
    decreases |reqs|
  {
    if reqs != [] {
      match reqs[0]
      case Start(sid, catalog, draw) =>
        StartGameKeepsConsistent(views, sid, catalog, draw);
        ServeKeepsConsistent(StartGameSpec(views, sid, catalog, draw).sessions, reqs[1..]);
      case Turn(sid, move, pick, catalog, draw) =>
        TakeTurnKeepsConsistent(views, sid, move, pick, catalog, draw);
        ServeKeepsConsistent(TakeTurnSpec(views, sid, move, pick, catalog, draw).sessions, reqs[1..]);
    }
  }

  /** A finished game stays as it is, whatever later requests do, as long as no new game reuses its id. */
  lemma {:induction false} GameOverIsFinal(views: map<string, Snapshot>, reqs: seq<Request>, sid: string)
    requires WellDrawn(reqs)
    requires sid in views && views[sid].gameOver
    requires forall i :: 0 <= i < |reqs| && reqs[i].Start? ==> reqs[i].sid != sid
    ensures sid in Serve(views, reqs) && Serve(views, reqs)[sid] == views[sid]
    decreases |reqs|
  {
    if reqs != [] {
      var next := match reqs[0]
        case Start(id, catalog, draw) => StartGameSpec(views, id, catalog, draw).sessions
        case Turn(id, move, pick, catalog, draw) => TakeTurnSpec(views, id, move, pick, catalog, draw).sessions;
      assert next[sid] == views[sid];
      GameOverIsFinal(next, reqs[1..], sid);
    }
  }

  /** The server: the `_sessions` dictionary from session id to the stored GameState. */
  class GameServer {
    var sessions: map<string, GameState>

    /** No two ids share a GameState, and every stored state is consistent. */
    ghost predicate Valid()
      reads this, sessions.Values
    {
      && (forall a, b :: a in sessions && b in sessions && a != b ==> sessions[a] != sessions[b])
      && AllConsistent(Views())
    }

    /** The value of every stored session. */
    function Views(): map<string, Snapshot>
      reads this, sessions.Values
    {
      map id | id in sessions :: sessions[id].View()
    }

    constructor ()
      ensures Valid() && sessions == map[]
    {
      sessions := map[];
    }

    /** start_game, with the catalog, the pool draw and the new session id as inputs. */
    method StartGame(sid: string, catalog: seq<Opponent>, draw: seq<nat>) returns (r: Result<Snapshot, StartError>)
      requires Valid() && ValidDraw(draw, |catalog|)
      modifies this
      ensures Valid()
      ensures StartOutcome(Views(), r) == StartGameSpec(old(Views()), sid, catalog, draw)
      ensures r.Success? ==> fresh(sessions[sid])
      ensures forall id :: id in old(sessions) && id != sid ==> id in sessions && sessions[id] == old(sessions[id])
    {
      if catalog == [] {
        return Failure(NoObjects);
      }
      var state := new GameState(StartLevel(1, StartingHp, StartingHp, catalog, draw));
      sessions := sessions[sid := state];
      assert Views() == old(Views())[sid := state.View()];
      StartLevelConsistent(1, StartingHp, StartingHp, catalog, draw);
      return Success(state.View());
    }

    /**
     * take_turn, with the catalog and the random draws as inputs. Only the
     * requested session changes: in place, or, when its level is cleared, by a
     * new state put under its id. Anything but a level clear, a defeat among
     * them, keeps the stored state.
     */
    method TakeTurn(sid: string, move: string, pick: nat, catalog: seq<Opponent>, draw: seq<nat>)
      returns (r: Result<Snapshot, TurnError>)
      requires Valid() && ValidDraw(draw, |catalog|)
      modifies this, if sid in sessions then {sessions[sid]} else {}
      ensures Valid()
      ensures TurnOutcome(Views(), r) == TakeTurnSpec(old(Views()), sid, move, pick, catalog, draw)
      ensures sessions.Keys == old(sessions.Keys)
      ensures r.Success? && r.value.levelUp ==> fresh(sessions[sid])
      ensures r.Failure? || !r.value.levelUp ==> sessions == old(sessions)
    {
      if sid !in sessions {
        return Failure(InvalidSession);
      }
      if !IsMove(move) {
        return Failure(InvalidMove);
      }
      var state := sessions[sid];
      assert Views()[sid] == state.View();
      if state.gameOver {
        return Success(state.View());
      }
      if state.cpuChoices == [] {
        return Failure(EmptyPool);
      }
      r := PlayStored(sid, move, pick, catalog, draw);
    }

    /** The part of take_turn past its guards, on the session stored under `sid`. */
    method PlayStored(sid: string, move: string, pick: nat, catalog: seq<Opponent>, draw: seq<nat>)
      returns (r: Result<Snapshot, TurnError>)
      requires Valid() && ValidDraw(draw, |catalog|) && IsMove(move)
      requires sid in sessions && !sessions[sid].gameOver && sessions[sid].cpuChoices != []
      modifies this, sessions[sid]
      ensures Valid()
      ensures var next := Resolve(old(sessions[sid].View()), move, pick, catalog, draw);
        r == Success(next) && Views() == old(Views())[sid := next]
      ensures sessions.Keys == old(sessions.Keys)
      ensures r.value.levelUp ==> fresh(sessions[sid])
      ensures !r.value.levelUp ==> sessions == old(sessions)
    {
      var state := sessions[sid];
      ghost var before := Views();
      ghost var s := state.View();
      assert before[sid] == s;
      ResolveConsistent(s, move, pick, catalog, draw);
      ResolveFlags(s, move, pick, catalog, draw);
      var current := PlayTurn(state, move, pick, catalog, draw);
      forall id | id in sessions && id != sid
        ensures sessions[id].View() == before[id]
      {
        assert sessions[id] != state;
      }
      Store(sid, state, current, before);
      assert current.View() == Resolve(s, move, pick, catalog, draw);
      assert Views() == before[sid := current.View()];
      return Success(current.View());
    }

    /**
     * Puts the state a turn produced under `sid`: the same object needs no
     * change to the map, a new one replaces the old entry.
     */
    method Store(sid: string, state: GameState, current: GameState, ghost before: map<string, Snapshot>)
      requires sid in sessions && sessions[sid] == state
      requires forall a, b :: a in sessions && b in sessions && a != b ==> sessions[a] != sessions[b]
      requires current == state || current !in sessions.Values
      requires before.Keys == sessions.Keys && AllConsistent(before) && Consistent(current.View())
      requires forall id :: id in sessions && id != sid ==> sessions[id].View() == before[id]
      modifies this
      ensures Valid()
      ensures Views() == before[sid := current.View()]
      ensures sessions == if current == state then old(sessions) else old(sessions)[sid := current]
    {
      ghost var views := before[sid := current.View()];
      assert AllConsistent(views);
      if current != state {
        sessions := sessions[sid := current];
      }
      forall id | id in sessions
        ensures id in views && sessions[id].View() == views[id]
      {
      }
      assert Views() == views;
    }
  }
}
