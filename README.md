# Rock-paper-scissors battle server: a verified model

This project models the battle logic of the single-phase rock-paper-scissors
game server in `backend/app.py`. A player starts a game and then sends one
move per turn: `rock`, `paper` or `scissors`. The server draws an opponent
from the current level's pool of up to three catalog entries and compares the
move with the opponent's type. Then it applies damage:

- a tie costs both sides 1 hit point;
- a win costs the opponent 3;
- a loss costs the player 3.

If the player's hit points reach 0, the game is over, even when the opponent
falls in the same turn. If only the opponent falls, the session's state is
replaced by a fresh state for the next level. The opponent then has
`2 + level` hit points, and the player keeps their hit points and the last
turn's opponent and result.

Modules, one per concern of the source file:

- `Wrappers` (`wrappers.dfy`): `Option` and `Result`.
- `Matchup` (`matchup.dfy`): `compare_moves` and the table of winning pairs,
  with a pair-by-pair reference relation `Beats`.
- `Catalog` (`catalog.dfy`): the opponent record and the comma-separated
  branch of `load_objects`. That branch is a loop (`LoadObjects`) proved equal
  to a specification function (`ParseCatalog`) over the lines of the file.
  Python's `str.strip`, `str.lower` and `str.split(",", 1)` are written out.
- `Pool` (`pool.dfy`): `random_cpu_choices`. The random sample is an input: a
  list of distinct positions in the catalog.
- `Game` (`game.dfy`): `GameState` as a class whose fields are updated in
  place, and `Snapshot`, the value of all its fields (what `asdict` returns).
  It also holds `start_level`, `apply_damage` and the part of `take_turn` that
  plays a turn. The methods are proved against functions on `Snapshot`, and
  the lemmas state what a turn does.
- `Server` (`server.dfy`): the `_sessions` dictionary as a class holding a
  `map` from session id to `GameState`, plus `start_game` and `take_turn`.
  Both are proved against functions on the map of snapshots. `Serve` runs any
  sequence of requests, and the lemmas about it say that every reachable
  state is consistent. In particular, hit points are never seen below 0. This
  holds because every request is given its catalog. A load that fails during
  a level-up breaks it in the source (see "Left out").

Inputs that the source gets from I/O or randomness are parameters:

- the catalog of opponents;
- the positions chosen by `random.sample`;
- the index used by `random.choice`, a `pick: nat` that selects entry
  `pick % |pool|`, so every entry can be chosen;
- the new session id.

Facts about `backend/app.py` that the model keeps:

- The opponent's maximum is `2 + level`. Levels have no cap, and no level ends the game in victory.
- One turn request plays a whole turn: draw, compare, damage, then the defeat and level checks.
- The only matchups are the three moves' pairs. An opponent type outside the three moves beats every move.
- When reading the comma-separated file, only blank lines are skipped. A row
  with an empty name or type is kept, with the empty text.
- A non-blank data line without a comma makes the whole load fail. The
  source raises `ValueError` while unpacking the split; here this is
  `Failure(MissingComma)`.
- If a level-up reloads an empty catalog, the next level gets an empty pool.
  The next turn on that session then fails in `random.choice` before
  anything changes. Here this is `Failure(EmptyPool)`; in the source it is an
  unhandled `IndexError`.

## Model

| member | source | states |
|---|---|---|
| `Matchup.CompareMoves` | backend/app.py:89-99 | the result is one of tie, win, loss; tie exactly when the two labels are equal; win exactly when they differ and the move beats the type by the reference relation |
| `Matchup.MovesAreTableKeys` | backend/app.py:92-96 | the table of winning pairs has exactly the three valid moves as keys, so every valid move can be looked up |
| `Matchup.DistinctMovesOneWins` | backend/app.py:89-99 | for two different moves, exactly one of the two comparisons is a win, and the other is then a loss |
| `Matchup.UnknownTypeLoses` | backend/app.py:97-99 | an opponent type that is not one of the three moves always beats the player |
| `Catalog.StripLeft` | backend/app.py:61 | only whitespace is removed from the front, and the rest does not start with whitespace |
| `Catalog.StripRight` | backend/app.py:61 | only whitespace is removed from the end, and the rest does not end with whitespace |
| `Catalog.StripLeftIsSuffix` | backend/app.py:61 | what the front strip keeps is a suffix of its input |
| `Catalog.StripRightIsPrefix` | backend/app.py:61 | what the end strip keeps is a prefix of its input |
| `Catalog.Strip` | backend/app.py:59 | neither end of the result is whitespace, and the result is empty exactly when the input is all whitespace (the blank-line test) |
| `Catalog.StripKeepsMiddle` | backend/app.py:61 | the stripped text is the contiguous middle of the input, and everything cut on either side is whitespace |
| `Catalog.BlankIsWhitespace` | backend/app.py:59 | a line is skipped as blank exactly when every character of it is whitespace |
| `Catalog.ToLower` | backend/app.py:62 | same length; every upper-case letter becomes the same letter in lower case; every other character is kept |
| `Catalog.ToLowerIdempotent` | backend/app.py:62 | lower-casing twice equals lower-casing once |
| `Catalog.ToLowerKeepsStripped` | backend/app.py:61-62 | lower-casing a stripped type leaves it stripped |
| `Catalog.FirstComma` | backend/app.py:61 | none exactly when the line has no comma; otherwise the position of a comma with no comma before it |
| `Catalog.FirstCommaAfter` | backend/app.py:61 | in a name without commas, then a comma, then a type, the cut is right after the name |
| `Catalog.ParseRow` | backend/app.py:61-62 | splitting a line fails exactly when it has no comma |
| `Catalog.ParseRowRoundTrip` | backend/app.py:61-62 | a name without commas, a comma and a type parse to the stripped name and the stripped, lower-cased type |
| `Catalog.ParseRowWellFormed` | backend/app.py:61-62 | a parsed record has a stripped name and a stripped, lower-case type |
| `Catalog.ParseNext` | backend/app.py:59-62 | one loop step fails exactly when the parse had already failed or the line is non-blank without a comma |
| `Catalog.ParseRows` | backend/app.py:58-62 | the definition of the loop over the data lines, one `ParseNext` step per line in order; its contract is carried by the lemmas below |
| `Catalog.DataLines` | backend/app.py:58 | the file is the header line followed by the data lines; an empty file has no data lines |
| `Catalog.ParseCatalog` | backend/app.py:55-63 | the definition of the comma-separated load over the file's lines; `CatalogFailsIff`, `CatalogShape` and `CatalogContent` state its properties, and `LoadObjects` computes it |
| `Catalog.NonBlank` | backend/app.py:59-60 | the lines it keeps are all non-blank, and a line is kept exactly when it is among the inputs and not blank; order and repetition are fixed by the two lemmas below |
| `Catalog.NonBlankSingle` | backend/app.py:59-60 | a single line is kept exactly when it is not blank |
| `Catalog.NonBlankAppend` | backend/app.py:58-60 | filtering two lists one after the other is filtering each and concatenating, so the kept lines stay in file order, each as often as it occurs |
| `Catalog.ParseNextShape` | backend/app.py:59-62 | a successful step leaves the records as they are for a blank line and appends exactly that line's parsed record for a non-blank one |
| `Catalog.ParseRowsFailsIff` | backend/app.py:58-62 | parsing the data lines fails exactly when one of them is non-blank without a comma |
| `Catalog.ParseRowsShape` | backend/app.py:58-62 | a successful parse has one well-formed record per non-blank data line |
| `Catalog.ParseRowsContent` | backend/app.py:58-62 | record j of a successful parse is the parsed record of the j-th non-blank data line, and there are no others |
| `Catalog.FailureIsFinal` | backend/app.py:58-61 | once a prefix of the data lines fails, the whole parse fails, so the loop may stop at the first bad line |
| `Catalog.CatalogFailsIff` | backend/app.py:58-63 | the header line is ignored, and the load fails exactly when some later line is non-blank without a comma |
| `Catalog.CatalogShape` | backend/app.py:58-63 | a loaded catalog holds one stripped, lower-cased record per non-blank line after the header |
| `Catalog.CatalogContent` | backend/app.py:58-63 | record j of a loaded catalog is the parsed record of the j-th non-blank line after the header, in file order |
| `Catalog.LoadObjects` | backend/app.py:55-63 | the line loop returns exactly the specified parse of the file's lines |
| `Pool.FirstPositions` | backend/app.py:66-69 | for every catalog size, some valid draw exists |
| `Pool.PickSubMultiset` | backend/app.py:68-69 | entries drawn at distinct positions form a sub-multiset of the catalog |
| `Pool.RandomCpuChoices` | backend/app.py:66-69 | `min(3, n)` opponents, each from the catalog, none more often than in the catalog; a catalog of fewer than three entries is offered whole, as a permutation |
| `Game.GameState.constructor` | backend/app.py:19-30 | every field of the new state holds the given value |
| `Game.StartLevel` | backend/app.py:72-86 | opponent at full hit points `2 + level`; player hit points and maximum as given; no last opponent, empty last result; game not over, no level-up; a pool of `min(3, n)` catalog entries |
| `Game.Damaged` | backend/app.py:102-109 | only the two hit-point fields change, neither rises, and the two sides lose 2 hit points in all on a tie and 3 otherwise |
| `Game.DamageByResult` | backend/app.py:102-109 | a tie lowers both sides by 1, a win only the opponent by 3, any other result only the player by 3 |
| `Game.ApplyDamage` | backend/app.py:102-109 | the state changed in place is the damaged value of the old state |
| `Game.CpuChoice` | backend/app.py:138 | the drawn opponent is an entry of the pool, and pick k draws entry k |
| `Game.Resolve` | backend/app.py:138-161 | the definition of a turn on a live state, which `DefeatHasPriority`, `ClearStartsNextLevel` and `OrdinaryTurn` describe case by case. Its own contract: the turn's opponent and comparison are recorded, the player's maximum is kept, the player's hit points are not below 0, and the level rises by one exactly with the level-up flag |
| `Game.DefeatHasPriority` | backend/app.py:147-150 | when the player's hit points reach 0 or below, even as the opponent falls: hit points are 0, the game is over, no level-up, and level, pool and opponent hit points are as the fight left them |
| `Game.ClearStartsNextLevel` | backend/app.py:152-161 | when the player survives and the opponent falls: level + 1, opponent at full `2 + level`, player hit points as after damage, the same maximum, this turn's opponent and result, the level-up flag, and a fresh pool |
| `Game.OrdinaryTurn` | backend/app.py:138-163 | any other turn leaves both sides above 0, no level-up flag, the same level and pool, and this turn's comparison as the last result |
| `Game.ResolveFlags` | backend/app.py:145-159 | the level-up flag is set exactly on a level clear, and, on a live game, the game ends exactly on a defeat |
| `Game.StartLevelConsistent` | backend/app.py:72-86 | a level started with the player alive satisfies the state invariant |
| `Game.ResolveConsistent` | backend/app.py:138-163 | a turn on a live state that satisfies the invariant yields a state that satisfies it |
| `Game.Fight` | backend/app.py:138-145 | the stored state, changed in place, takes the value of the fought turn |
| `Game.AdvanceLevel` | backend/app.py:153-159 | the old state takes the level increment and the level-up flag and nothing else; a new state for that level carries the player's hit points and maximum, this turn's opponent and result, and the flag |
| `Game.PlayTurn` | backend/app.py:138-163 | the state returned has the value of the turn; it is the same object unless the level was cleared, in which case it is new; the old object, no longer stored, then holds the level increment, the flag, the player's hit points, the turn's opponent and result, and the old pool and maxima |
| `Server.StartGameSpec` | backend/app.py:114-119 | fails exactly on an empty catalog, without changes; otherwise the id holds the answer, which is exactly the level-1 start (`StartLevel` at 15/15 with the given catalog and draw): a 3/3 opponent, 1 to 3 choices, not over, no level-up, no last turn; other sessions are untouched |
| `Server.TakeTurnSpec` | backend/app.py:129-163 | an unknown id, then an invalid move, is refused, and a finished game is answered as it is, all without change; on a live game an empty pool is refused exactly when the pool is empty, and otherwise the answer is the turn played by `Resolve`, stored under the id; no other session changes |
| `Server.StartGameKeepsConsistent` | backend/app.py:114-119 | starting a game keeps every session consistent |
| `Server.TakeTurnKeepsConsistent` | backend/app.py:129-163 | a turn request keeps every session consistent |
| `Server.ServeKeepsConsistent` | backend/app.py:112-163 | after any sequence of requests, each with its catalog given, every session is consistent: hit points within 0 and their maximum, the game over exactly at 0 player hit points |
| `Server.GameOverIsFinal` | backend/app.py:135-136 | a finished game stays unchanged under any later requests that do not reuse its id |
| `Server.GameServer.constructor` | backend/app.py:36 | the server starts with no sessions |
| `Server.GameServer.StartGame` | backend/app.py:112-120 | the stored sessions and the answer are those of the start specification, and the new state is a fresh object |
| `Server.GameServer.TakeTurn` | backend/app.py:123-163 | the stored sessions and the answer are those of the turn specification; the entry is replaced by a new object exactly on a level-up and kept otherwise, a defeat included |
| `Server.GameServer.PlayStored` | backend/app.py:138-163 | the requested session takes the value of the turn, and no other session changes |
| `Server.GameServer.Store` | backend/app.py:156-160 | a new state replaces the entry under the id; the same state leaves the map as it is |

## Left out

- HTTP routing, `request.get_json`, `jsonify`, status codes and CORS: requests are method calls, and answers are `Result` values.
- `uuid.uuid4`: the session id is an input. Its randomness and uniqueness are not modelled. Like the dictionary assignment, a start with an id already in use replaces that session.
- The distributions of `random.sample` and `random.choice`: the draws are inputs, and no claim is made about uniformity.
- Opening and reading the data file, the `OBJECTS_FILE` environment variable, `splitlines`, and the spreadsheet branch through `openpyxl`. These are file-system and foreign-library work; the parse starts from the list of lines.
- A failure to read the catalog during a level-up: the catalog is an input. In the source, `load_objects` at line 155 can raise, for a missing file or the `MissingComma` case. The stored state then keeps the damage, the opponent at 0 hit points or below, the incremented level and a false `game_over`. Session consistency (`Server.ServeKeepsConsistent`) no longer holds after such a failure: `cpu_hp_max` is then not `2 + level`, and negative opponent hit points can be returned by a later turn.
- Catalog.ToLower: lower-cases only the ASCII letters A to Z. Python's `str.lower` also maps other Unicode letters; Dafny has no Unicode case tables.
- Matchup.CompareMoves: requires the move to be a table key or equal to the type. Called with any other move, the source raises `KeyError`, and `take_turn` never does this.
- Concurrent requests on one session: each request is one atomic method call.
