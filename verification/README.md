# Memory game resolver — a Dafny model

This project models the game logic of a Django memory-matching card game.
A player turns cards face up two at a time. Two cards with equal values form a
pair. A level is won once every pair has been found.

The game logic exists in two parallel forms, and both are modelled here.

- **The database-backed engine** (`services/game_engine.py`):
  - A game (`Partida`) owns cards at positions `0 .. 2n-1`. Each card has a
    `valor`, a `simbolo` and two flags, `revelada` and `emparejada`.
  - The game has the counters `movimientos` and `aciertos` and the flags
    `activa` and `ganada`.
  - `reveal_card`, `hide_unmatched` and `forfeit_game` update this state in
    place. `create_game` closes the player's previous games and deals a
    shuffled board.
  - `serialize_game_state` shows the client only the faces of visible cards.
  - `actualizar_estadisticas` keeps a per-(user, level) statistic with an
    incremental running mean of moves.
- **The session-based view** (`views.py`):
  - The board lives in the user's session as three lists of card ids
    (`cartas`, `revealed`, `matched`) and two counters.
  - `reveal_card` resolves a reveal against these lists, and `generar_estado`
    renders the board.
  - Winning a level closes the user's active game, records the statistic and
    names the next level. Levels are sorted by difficulty and the order wraps
    around to the first.
  - `actualizar_estadistica` records a win reported by the client.

Modules, one per file:

| module | file | contents |
|---|---|---|
| `Wrappers` | wrappers.dfy | `Option` |
| `PyText` | pytext.dfy | Python's `str(int)`, and `int(x) if str(x).isdigit() else 0` |
| `Models` | models.dfy | `Level`, `Card`, `Intento`, `Estadistica`, the statistic table and `get_or_create` |
| `Board` | board.dfy | pair count, card values, Fisher–Yates shuffle |
| `Statistics` | statistics.dfy | the engine's and the view's statistic updates, and the running mean |
| `EngineCards` | engine_cards.dfy | the serialized view of a card list; reveal, pair and hide on card lists |
| `Engine` | engine.dfy | `Game` (a class over `array<Card>`), `ForfeitGame`, `Registry.CreateGame` |
| `LevelNavigation` | levels.dfy | next-level search in `reveal_card`, `next_level` and `cambiar_nivel` |
| `Views` | views.dfy | `Session` (a class over the session lists), `generar_estado`, `actualizar_estadistica` |

Interface decisions:
- Both the statistic table and the `Carta` rows read by the session view are
  maps. The statistic table is passed into an operation and handed back out.
- The random draws of `random.shuffle` are a parameter, with `draws[i] <= i`.
- The partner card in the engine's `reveal_card` comes from a `.first()`
  query with no explicit ordering, which Django orders by primary key. The
  model chooses it nondeterministically (`:|`) among the other face-up
  unmatched cards, which over-approximates that choice.
- The game found by the view's `Partida.objects.filter(...).last()` is a
  parameter (`null` when there is none). So is the level list in difficulty
  order.

## Model

| member | source | states |
|---|---|---|
| PyText.Show | backend/memory_game/views.py:377-378 | `str(n)` is a digit string exactly when `n` is non-negative, and then reads back as `n`; a negative number prints as `-` followed by the digits of `-n` |
| PyText.IsDigits | backend/memory_game/views.py:377-378 | a text that passes `isdigit()` is non-empty and starts with neither `-` nor `+` |
| PyText.DigitsValue | backend/memory_game/views.py:377-378 | `int()` of a string of `k` decimal digits is a natural number below `10^k` |
| PyText.ShowNatRoundTrip | backend/memory_game/views.py:377-378 | the decimal text of a natural number is a digit string that reads back as the same number |
| PyText.ParseCount | backend/memory_game/views.py:377-378 | a text that is not a digit string counts as 0 |
| PyText.ParseShow | backend/memory_game/views.py:377-378 | a posted integer is read back as itself when non-negative, and as 0 when negative |
| PyText.ShowNatInjective | backend/memory_game/services/game_engine.py:24 | different pair indices print differently |
| Board.PairCount | backend/memory_game/services/game_engine.py:30-61 | no level gives 2 pairs; a non-zero `card_pairs` is used as is; otherwise non-zero `rows` and `cols` give the floor of half their product; otherwise difficulty 1, 2, 3 or more gives 6, 9, 12 pairs and anything else 2 |
| Board.StoredLevelPairCount | backend/memory_game/services/game_engine.py:47-61 | for a level as the ORM stores it (no `card_pairs`, `rows` or `cols`), tier 1 gives 6 pairs, tier 2 gives 9, tier 3 and up give 12, and anything else gives 2 |
| Board.PairCountIgnoresDimensions | backend/memory_game/services/game_engine.py:40-45 | two stored levels of the same tier get the same pair count whatever their `filas`/`columnas` |
| Board.PairCountMonotone | backend/memory_game/services/game_engine.py:50-57 | from tier 1 up, a harder stored level never gets fewer pairs |
| Board.CardName | backend/memory_game/services/game_engine.py:24 | the value of pair `i` is `card_` followed by a non-empty digit string that reads as `i` |
| Board.CardNameInjective | backend/memory_game/services/game_engine.py:24 | `card_i` and `card_j` are equal only when `i == j` |
| Board.Base | backend/memory_game/services/game_engine.py:24 | the name list has `n` entries, or none when `n` is not positive |
| Board.BaseAt | backend/memory_game/services/game_engine.py:24 | entry `i` of the name list is `card_i` |
| Board.BaseNames | backend/memory_game/services/game_engine.py:24 | every entry of the name list is some `card_k` with `k < n` |
| Board.BaseCount | backend/memory_game/services/game_engine.py:24 | each `card_k` with `k < n` occurs exactly once among the first `n` names, and no other `card_k` occurs |
| Board.Doubled | backend/memory_game/services/game_engine.py:25 | the doubled list is twice as long as the name list, and both its halves are the name list |
| Board.DoubledCounts | backend/memory_game/services/game_engine.py:24-25 | the doubled list has `2n` entries; each `card_k` with `k < n` occurs exactly twice and nothing else occurs |
| Board.Shuffle | backend/memory_game/services/game_engine.py:26 | the in-place shuffle of the array rearranges its contents (same multiset) |
| Board.GenerateValues | backend/memory_game/services/game_engine.py:22-27 | the values are a rearrangement of the doubled names: `2n` entries, every `card_k` with `k < n` exactly twice, no other value |
| Statistics.RecordFinished | backend/memory_game/services/game_engine.py:260-285 | one more game, counted as a victory or a defeat by `ganada`; the new mean times the new count equals the old mean times the old count plus the game's moves; the other fields are unchanged; the total = victories + defeats invariant is kept |
| Statistics.RecordForfeit | backend/memory_game/services/game_engine.py:217-223 | one more game and one more defeat; the victories and the mean are untouched |
| Statistics.ForfeitCountsAsAverage | backend/memory_game/services/game_engine.py:217-223 | since the mean is not updated, a forfeited game enters later means as if it had taken exactly the current mean number of moves |
| Models.GetOrCreate | backend/memory_game/services/game_engine.py:262-265 | the stored row of the (user, level) key, or a new row with the model's defaults when there is none |
| Models.GetOrCreateValid | backend/memory_game/services/game_engine.py:262-265 | on a table whose rows all count each game as one victory or one defeat, the row found or created does too |
| Statistics.FinishedKeepsTableValid | backend/memory_game/services/game_engine.py:258-285 | the end-of-game update keeps every row of the table valid |
| Statistics.ForfeitKeepsTableValid | backend/memory_game/services/game_engine.py:220-223 | the forfeit update keeps every row of the table valid |
| Views.PostedStatsKeepsTableValid | backend/memory_game/views.py:394-407 | on a table of valid rows the view's update never divides by zero, and every row stays valid |
| Statistics.ReplayCounts | backend/memory_game/services/game_engine.py:267-274 | recording a sequence of games from a new row counts every game, every victory and every defeat |
| Statistics.ReplaySum | backend/memory_game/services/game_engine.py:276-283 | after such a replay, the mean times the count equals the sum of the moves of all games |
| Statistics.ReplayIsTrueMean | backend/memory_game/services/game_engine.py:260-285 | the incremental update, started from a new row, always holds the exact mean of all recorded games' moves |
| Statistics.ActualizarEstadistica | backend/memory_game/views.py:394-403 | the view sets `tiempo`, `intentos` and `pares_encontrados` from the post, counts one more game and one more victory, and updates the mean over the new total; it fails (`None`) exactly when the new total is 0; a valid row always succeeds and stays valid |
| Statistics.PostedMovesRecorded | backend/memory_game/views.py:372-378 | a posted move count is recorded as posted when non-negative, and as 0 when negative |
| EngineCards.Views | backend/memory_game/services/game_engine.py:233-246 | the serialized card list has one entry per card |
| EngineCards.ViewsWithholdHidden | backend/memory_game/services/game_engine.py:237-245 | entry `i` carries position `i` and the card's flags; `valor` and `simbolo` are present exactly when the card is face up or matched |
| EngineCards.HiddenValuesDoNotLeak | backend/memory_game/services/game_engine.py:242-243 | two boards that differ only in the faces of cards that are neither face up nor matched serialize identically |
| EngineCards.Flip | backend/memory_game/services/game_engine.py:129 | turning card `p` face up sets its `revelada` flag and changes nothing else on the board |
| EngineCards.PairUp | backend/memory_game/services/game_engine.py:152-153 | pairing `p` and `q` sets their `emparejada` flags and changes nothing else on the board |
| EngineCards.HideAt | backend/memory_game/services/game_engine.py:196-198 | hiding clears `revelada` exactly on the targeted unmatched cards and changes nothing else on the board |
| EngineCards.FlipRevealedUnmatched | backend/memory_game/services/game_engine.py:128-135 | turning an unmatched card face up adds exactly its position to the face-up unmatched set |
| EngineCards.PairUpRevealedUnmatched | backend/memory_game/services/game_engine.py:151-153 | pairing two cards removes exactly their positions from the face-up unmatched set |
| EngineCards.RevealKeepsAtMostTwo | backend/memory_game/services/game_engine.py:128-157 | if at most one card was face up and unmatched before a compared reveal, then a match leaves none and a mismatch leaves exactly the two compared cards (never more than two) |
| EngineCards.HideAtEffect | backend/memory_game/services/game_engine.py:195-200 | hiding turns face down exactly the named unmatched cards; every other card is unchanged |
| EngineCards.HideAtIdempotent | backend/memory_game/services/game_engine.py:190-201 | hiding the same positions twice gives the same cards as hiding them once |
| Engine.Game.constructor | backend/memory_game/services/game_engine.py:79-101 | a new active game with no moves and an empty attempt log; the card at position `p` has value and symbol `values[p]`, face down and unmatched |
| Engine.Game.Serialize | backend/memory_game/services/game_engine.py:233-255 | the serialized state: the id as text, the counters and flags copied, and the cards in position order as `EngineCards.Views` gives them |
| Engine.Game.RevealCard | backend/memory_game/services/game_engine.py:112-183 | a finished game, a missing position, a matched card and a face-up card each give their error or ignore answer and change nothing; otherwise the card turns face up, giving a first reveal when no other card is face up and unmatched and a comparison otherwise; statistics change only when this call ends an active game as won; at most one face-up unmatched card before means at most two after |
| Engine.Game.ComparePair | backend/memory_game/services/game_engine.py:143-183 | one more move; a match exactly when the two values are equal, which pairs both cards and counts a hit; a mismatch leaves both face up; the comparison is logged; reaching the level's pair count closes the game as won and records one victory with the game's moves |
| Engine.Game.ScorePair | backend/memory_game/services/game_engine.py:147-163 | one more move; a match exactly when the two cards' values were equal, in which case both become matched and a hit is counted; the comparison is logged; the flags are untouched |
| Engine.Game.CloseAndRecord | backend/memory_game/services/game_engine.py:166-171 | the game becomes inactive and won with its counters kept, and its (user, level) statistic records one victory with the game's moves |
| Engine.Game.HideUnmatched | backend/memory_game/services/game_engine.py:190-201 | the cards become `HideAt(old cards, {pos1, pos2})`; the reported positions are distinct, exist, and are exactly the named unmatched cards; counters and flags are not touched |
| Engine.Game.HideEach | backend/memory_game/services/game_engine.py:195-200 | the loop over the distinct named positions hides each unmatched one and reports exactly those |
| Engine.Game.CloseAsWon | backend/memory_game/views.py:385-391 | the game becomes inactive and won, with the given move and hit counters |
| Engine.ForfeitGame | backend/memory_game/services/game_engine.py:209-225 | a missing or finished game is refused, and nothing changes; otherwise the game becomes inactive and not won with its counters kept, and its statistic row gets one more game and one more defeat |
| Engine.Deal | backend/memory_game/services/game_engine.py:70-102 | a new active game with 0 moves whose card values are, as a multiset, the doubled name list of the level's pair count (so each `card_k` with `k < n` exactly twice, by `Board.DoubledCounts`); every card face down and unmatched with its symbol equal to its value |
| Engine.Registry.CloseActiveGames | backend/memory_game/services/game_engine.py:74-77 | every active game of the player, at any level, becomes inactive and not won; all other games keep their flags; no counter or log changes |
| Engine.Registry.CreateGame | backend/memory_game/services/game_engine.py:68-104 | the player's active games are closed as not won, the rest keep their flags, and the dealt game (as `Engine.Deal` states it) is appended |
| LevelNavigation.FirstIndex | backend/memory_game/views.py:150 | the first index holding the key, or -1 exactly when the key is absent |
| LevelNavigation.NextIndex | backend/memory_game/views.py:150-151 | the first index of the key plus one, modulo the length; 0 for an unknown key |
| LevelNavigation.NextIndexCycles | backend/memory_game/views.py:150-151 | with distinct keys, the level after index `i` is at index `(i + 1) mod length` |
| LevelNavigation.SiguienteNivel | backend/memory_game/views.py:149-151 | the level after the first one with the won level's id, wrapping to the first; the first level when no level has that id |
| LevelNavigation.SiguienteNivelWraps | backend/memory_game/views.py:149-151 | with distinct level ids, winning the level at index `i` leads to the level at index `i + 1`, or back to the first after the last |
| LevelNavigation.NextLevel | backend/memory_game/views.py:497-511 | there is a next level exactly when there are levels; for a known name (compared without case) it is the level after the name's first match, wrapping to the first; for an unknown name it is the first level |
| LevelNavigation.NextLevelWraps | backend/memory_game/views.py:503-508 | with names that differ even without case, the level after the one at index `i` is at index `i + 1`, or the first after the last |
| LevelNavigation.CambiarNivel | backend/memory_game/views.py:268-284 | the scan for the current level by name answers the same level as `NextLevel`; with no levels at all the fallback `niveles[0]` fails, which is `None` |
| Views.EstadoOf | backend/memory_game/views.py:206-220 | the rendered state has one card per board id and copies the counters and the `ganada` flag |
| Views.GenerarEstado | backend/memory_game/views.py:206-220 | the card loop builds exactly `EstadoOf` |
| Views.EstadoCard | backend/memory_game/views.py:210-214 | each rendered card is flagged `revelada` and `emparejada` by membership in the lists, and shows its symbol only when it is in one of them, otherwise `''` |
| Views.EstadoHidesFaceDownCards | backend/memory_game/views.py:211 | two card tables that agree on the symbols of the face-up and paired cards render the same state |
| Views.Resolve | backend/memory_game/views.py:115-128 | turning a card that completes a pair counts one move and clears the face-up list; otherwise only the face-up list changes; at most one hit is added, and only with the two turned ids appended to the paired list |
| Views.ResolveKeepsConsistent | backend/memory_game/views.py:111-128 | a session that is consistent stays consistent after any unpaired card is turned: at most one id waits face up, no id is paired twice, no id is both waiting and paired, every id is on the board, and there are two paired ids per hit |
| Views.MoveCountedOnSecondCard | backend/memory_game/views.py:115-120 | a move is counted exactly when a second, different card joins the waiting one; otherwise the counters and the paired list stay as they were |
| Views.HitIffSameValue | backend/memory_game/views.py:119-128 | a compared move empties the face-up list; it appends both ids, in turn order, and counts a hit exactly when the two values are equal |
| Views.RepeatRevealChangesNothing | backend/memory_game/views.py:115-116 | turning again the card that waits face up changes nothing |
| Views.WinTestsAgree | backend/memory_game/views.py:135-161 | on an even board of distinct ids, hits reaching half the board holds exactly when every card is paired |
| Views.ActualizarEstadisticaView | backend/memory_game/views.py:363-407 | the user's active game at the level, if any, is closed as won with the posted counters; the statistic row of (user, level) becomes what `ActualizarEstadistica` gives |
| Views.Session.Start | backend/memory_game/views.py:458-462 | a fresh session: the dealt ids, with no face-up or paired ids and both counters 0 |
| Views.Session.RevealCard | backend/memory_game/views.py:98-169 | a position off the board is answered as invalid; a paired card returns the current state; either way the session, the game and the statistics are unchanged; otherwise the outcome is `TurnedFrom` of the prior session; the session invariant is kept; the game's counters change only on a compared move |
| Views.Session.Turn | backend/memory_game/views.py:115-169 | turning an unpaired card yields the outcome `TurnedFrom`: a won level (game closed as won, victory recorded, next level named, session kept as before) or the resolved progress stored and rendered |
| Views.Session.ComparePair | backend/memory_game/views.py:119-169 | the compared move: one more move, pairing on equal values, the game's counters updated, and the level won once the hits reach half the board |

## Left out

- Django plumbing is not modelled: requests, `JsonResponse`, templates,
  redirects, `login_required`/`csrf_exempt`, and `reveal_card_view`.
  `reveal_card_view` only looks up the active game and calls the engine.
- ORM queries become parameters, arrays and maps. Each operation is treated as
  atomic. `transaction.atomic`, `select_for_update` and concurrent requests are
  not modelled.
- Timestamps (`fecha_fin`, `timezone.now()`) are not modelled.
- Floating point is not modelled. `promedio_intentos` is an exact real.
  `Statistics.RecordFinished` leaves out the `round(…, 2)` of the engine.
- `Board.Shuffle` states only that the result is a rearrangement of its input,
  not which rearrangement the draws select.
- `Board.PairCount` models the `int(...)` conversions only for integer
  attributes. The exceptions they raise on other types, and the fall-through
  that follows, are not modelled.
- The `simbolo`/`valor` columns that may be null in the database are plain
  strings in the engine. The engine writes both from the same value.
- `Engine.Game.HideUnmatched` states which positions are reported, not in
  which order: the source's query is unordered.
- `Models.GetOrCreate`: the statistic table is a map, so it assumes at most
  one `Estadistica` row per (user, level). `Estadistica` in models.py
  declares no such constraint, and `guardar_estadistica` in views.py, which
  is not part of this model, inserts a row whenever it finds an active game
  at the level. Once a (user, level) has two rows, the `get_or_create` calls
  of `forfeit_game`, `actualizar_estadisticas` and `actualizar_estadistica`
  raise `MultipleObjectsReturned`, which the model does not capture.
- `Engine.Game.RevealCard`: the partner is any other face-up unmatched card,
  not specifically the lowest-keyed one that Django's `.first()` picks. This
  differs only when more than one other card is face up and unmatched.
- `LevelNavigation.CambiarNivel`: with no levels at all the source's fallback
  `niveles[0]` raises `IndexError`. The model answers `None` in its place and
  does not model the exception itself.
- `Engine.Registry.CreateGame` takes a level. A missing level (pair count 2)
  fails in the source when the game row is created.
- `Views.Session.RevealCard` requires every id on the board to have a
  `Carta` row. The source raises `DoesNotExist` otherwise.
- `Views.Session.RevealCard` treats the session as written back only where
  the view assigns its keys. The lists that the view extends in place are
  taken as not persisted on the won-level path, where no key is assigned.
- `Views.Session.RevealCard` does not model the `mensaje` text of a won level.
  Only the level name and the next level's name are modelled.
- `Views.Session.RevealCard` and `Views.Session.ComparePair` take the user's
  active game as given. They do not check that it belongs to the board in the
  session.
- `Views.ActualizarEstadisticaView` models only a level that exists. The
  404 answer for an unknown level name is not modelled.
- `LevelNavigation.Lower` lowers ASCII letters only. `PyText.IsDigits`
  accepts ASCII digits only. Python's Unicode `lower()` and `isdigit()` are
  wider.
- `cambiar_nivel`'s default name `"fácil"` and `next_level`'s redirect when
  there are no levels are web plumbing.
- `generar_estado` is defined twice in `views.py` with the same body. The
  model has one definition.
- The `card_pairs`, `rows` and `cols` attributes read by the pair-count rule
  are optional fields of `Level`. The stored `Nivel` has none of them
  (`Level.IsStored`).
