/**
 * The per-(user, level) statistic updates: the engine's update at the end of
 * a game, the engine's forfeit, and the view that records a won level posted
 * by the client. The running mean is kept exact (no rounding to 2 places).
 */
module Statistics {
  import opened Wrappers
  import opened Models
  import PyText

  /** The moves of every recorded game together, as the mean and the count give them. */
  function MovesTotal(s: Estadistica): real
  {
    s.promedioIntentos * (s.totalPartidas as real)
  }

  /**
   * `actualizar_estadisticas(game)`: one more game, counted as a victory or a
   * defeat, and the incremental mean `(avg * (n - 1) + moves) / n` over the new
   * total `n`, applied only when `n > 0`.
   */
  function RecordFinished(s: Estadistica, ganada: bool, movimientos: int): (r: Estadistica)
    ensures r.totalPartidas == s.totalPartidas + 1
    ensures r.victorias == s.victorias + (if ganada then 1 else 0)
    ensures r.derrotas == s.derrotas + (if ganada then 0 else 1)
    ensures r.totalPartidas > 0 ==> MovesTotal(r) == MovesTotal(s) + (movimientos as real)
    ensures r.totalPartidas <= 0 ==> r.promedioIntentos == s.promedioIntentos
    ensures r.tiempo == s.tiempo && r.intentos == s.intentos && r.paresEncontrados == s.paresEncontrados
    ensures s.Valid() ==> r.Valid()
  {
    var n := s.totalPartidas + 1;
    var counted := s.(totalPartidas := n,
                      victorias := if ganada then s.victorias + 1 else s.victorias,
                      derrotas := if ganada then s.derrotas else s.derrotas + 1);
    if n > 0 then
      counted.(promedioIntentos :=
        (s.promedioIntentos * ((n - 1) as real) + (movimientos as real)) / (n as real))
    else
      counted
  }

  /**
   * `forfeit_game`'s own statistic update: one more game and one more defeat;
   * the average is not touched.
   */
  function RecordForfeit(s: Estadistica): (r: Estadistica)
    ensures r.totalPartidas == s.totalPartidas + 1
    ensures r.derrotas == s.derrotas + 1
    ensures r.victorias == s.victorias && r.promedioIntentos == s.promedioIntentos
    ensures r.tiempo == s.tiempo && r.intentos == s.intentos && r.paresEncontrados == s.paresEncontrados
    ensures s.Valid() ==> r.Valid()
  {
    s.(totalPartidas := s.totalPartidas + 1, derrotas := s.derrotas + 1)
  }

  /**
   * Because the forfeit leaves the average as it is while the total grows, the
   * forfeited game enters every later mean as if it had taken exactly the
   * current average number of moves.
   */
  lemma ForfeitCountsAsAverage(s: Estadistica)
    ensures MovesTotal(RecordForfeit(s)) == MovesTotal(s) + s.promedioIntentos
  {
  }

  /** The engine's end-of-game update keeps every row of the table valid. */
  lemma FinishedKeepsTableValid(t: StatsTable, key: (nat, nat), ganada: bool, movimientos: int)
    requires TableValid(t)
    ensures TableValid(t[key := RecordFinished(GetOrCreate(t, key), ganada, movimientos)])
  {
    GetOrCreateValid(t, key);
    StoreValid(t, key, RecordFinished(GetOrCreate(t, key), ganada, movimientos));
  }

  /** The engine's forfeit update keeps every row of the table valid. */
  lemma ForfeitKeepsTableValid(t: StatsTable, key: (nat, nat))
    requires TableValid(t)
    ensures TableValid(t[key := RecordForfeit(GetOrCreate(t, key))])
  {
    GetOrCreateValid(t, key);
    StoreValid(t, key, RecordForfeit(GetOrCreate(t, key)));
  }

  /** One finished game: its outcome and its number of moves. */
  datatype Finished = Finished(ganada: bool, movimientos: int)

  /** The statistic after recording `games` one by one with `RecordFinished`. */
  function Replay(s: Estadistica, games: seq<Finished>): Estadistica
    decreases |games|
  {
    if |games| == 0 then s
    else
      var last := games[|games| - 1];
      RecordFinished(Replay(s, games[..|games| - 1]), last.ganada, last.movimientos)
  }

  function SumMoves(games: seq<Finished>): int
    decreases |games|
  {
    if |games| == 0 then 0 else SumMoves(games[..|games| - 1]) + games[|games| - 1].movimientos
  }

  function Wins(games: seq<Finished>): nat
    decreases |games|
  {
    if |games| == 0 then 0
    else Wins(games[..|games| - 1]) + (if games[|games| - 1].ganada then 1 else 0)
  }

  /** Replaying games from a new row counts every game, every victory and every defeat. */
  lemma {:induction false} ReplayCounts(games: seq<Finished>)
    ensures Replay(NewEstadistica, games).totalPartidas == |games|
    ensures Replay(NewEstadistica, games).victorias == Wins(games)
    ensures Replay(NewEstadistica, games).derrotas == |games| - Wins(games)
    decreases |games|
  {
    if |games| > 0 {
      ReplayCounts(games[..|games| - 1]);
    }
  }

  /** Replaying games from a new row makes the mean times the count the sum of the moves. */
  lemma {:induction false} ReplaySum(games: seq<Finished>)
    ensures MovesTotal(Replay(NewEstadistica, games)) == SumMoves(games) as real
    decreases |games|
  {
    if |games| > 0 {
      var prefix, last := games[..|games| - 1], games[|games| - 1];
      ReplaySum(prefix);
      ReplayCounts(prefix);
      var before := Replay(NewEstadistica, prefix);
      assert Replay(NewEstadistica, games) == RecordFinished(before, last.ganada, last.movimientos);
      assert SumMoves(games) == SumMoves(prefix) + last.movimientos;
    }
  }

  /**
   * The incremental update never recomputes from history, yet starting from a
   * new row it always holds the exact mean number of moves.
   */
  lemma ReplayIsTrueMean(games: seq<Finished>)
    ensures |games| > 0 ==>
              Replay(NewEstadistica, games).promedioIntentos == (SumMoves(games) as real) / (|games| as real)
  {
    ReplayCounts(games);
    ReplaySum(games);
    if |games| > 0 {
      MeanFromTotal(Replay(NewEstadistica, games), |games|, SumMoves(games));
    }
  }

  /** A row over `n > 0` games whose moves add up to `sum` has mean `sum / n`. */
  lemma MeanFromTotal(e: Estadistica, n: nat, sum: int)
    requires n > 0 && e.totalPartidas == n && MovesTotal(e) == sum as real
    ensures e.promedioIntentos == (sum as real) / (n as real)
  {
  }

  /**
   * `actualizar_estadistica` (the view): `tiempo`, `intentos` and
   * `pares_encontrados` are overwritten with the posted values (counters that
   * are not digit strings read as 0), one more game and one more victory are
   * counted, and the mean over the new total is updated without the engine's
   * `n > 0` guard: a new total of 0 divides by zero, which is `None` here.
   */
  function ActualizarEstadistica(s: Estadistica, tiempo: string, intentosText: string, paresText: string)
    : (r: Option<Estadistica>)
    ensures r.None? <==> s.totalPartidas + 1 == 0
    ensures r.Some? ==>
              && r.value.tiempo == tiempo
              && r.value.intentos == PyText.ParseCount(intentosText)
              && r.value.paresEncontrados == PyText.ParseCount(paresText)
              && r.value.totalPartidas == s.totalPartidas + 1
              && r.value.victorias == s.victorias + 1
              && r.value.derrotas == s.derrotas
              && MovesTotal(r.value) == MovesTotal(s) + (r.value.intentos as real)
    ensures s.Valid() ==> r.Some? && r.value.Valid()
  {
    var intentos := PyText.ParseCount(intentosText);
    var pares := PyText.ParseCount(paresText);
    var n := s.totalPartidas + 1;
    if n == 0 then None
    else
      Some(s.(tiempo := tiempo, intentos := intentos, paresEncontrados := pares,
              totalPartidas := n, victorias := s.victorias + 1,
              promedioIntentos := (s.promedioIntentos * ((n - 1) as real) + (intentos as real)) / (n as real)))
  }

  /**
   * A client that posts its move count as a plain number gets it recorded as
   * posted when it is non-negative, and as 0 when it is negative.
   */
  lemma PostedMovesRecorded(s: Estadistica, tiempo: string, moves: int, paresText: string)
    requires s.Valid()
    ensures ActualizarEstadistica(s, tiempo, PyText.Show(moves), paresText).Some?
    ensures ActualizarEstadistica(s, tiempo, PyText.Show(moves), paresText).value.intentos
            == if moves >= 0 then moves else 0
  {
    PyText.ParseShow(moves);
  }
}
