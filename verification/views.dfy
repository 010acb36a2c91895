/**
 * The session-based reveal view: the board lives in the user's session as
 * the list of card ids in board order, the ids turned face up (`revealed`),
 * the ids already paired (`matched`) and two counters; every reveal answers
 * with the board state built by `generar_estado`.
 */
module Views {
  import opened Wrappers
  import opened Models
  import Engine
  import Statistics
  import LevelNavigation
  import PyText

  /** The two columns of a `Carta` row the view reads. */
  datatype Carta = Carta(valor: Option<string>, simbolo: Option<string>)

  /** The `Carta` rows by id (`Carta.objects.get(id=...)`). */
  type CardTable = map<nat, Carta>

  /** Every id on the board has a row. */
  predicate Covers(db: CardTable, ids: seq<nat>)
  {
    forall id :: id in ids ==> id in db
  }

  // ---------------------------------------------------------------------
  // generar_estado
  // ---------------------------------------------------------------------

  datatype CartaEstado = CartaEstado(simbolo: Option<string>, revelada: bool, emparejada: bool)
  datatype Estado = Estado(cartas: seq<CartaEstado>, movimientos: int, aciertos: int, ganada: bool)

  /** One card as the client sees it: its symbol only once it is face up or paired. */
  function CartaEstadoOf(db: CardTable, cid: nat, revealed: seq<nat>, matched: seq<nat>): CartaEstado
    requires cid in db
  {
    var shown := cid in revealed || cid in matched;
    CartaEstado(if shown then db[cid].simbolo else Some(""), cid in revealed, cid in matched)
  }

  /** The board state of `generar_estado`, card by card in board order. */
  function EstadoOf(db: CardTable, cartas: seq<nat>, revealed: seq<nat>, matched: seq<nat>,
                    movimientos: int, aciertos: int, ganada: bool): (e: Estado)
    requires Covers(db, cartas)
    ensures |e.cartas| == |cartas|
    ensures e.movimientos == movimientos && e.aciertos == aciertos && e.ganada == ganada
  {
    Estado(seq(|cartas|, i requires 0 <= i < |cartas| => CartaEstadoOf(db, cartas[i], revealed, matched)),
           movimientos, aciertos, ganada)
  }

  /** `generar_estado`: the card loop building the client's view of the board. */
  method GenerarEstado(db: CardTable, cartas: seq<nat>, revealed: seq<nat>, matched: seq<nat>,
                       movimientos: int, aciertos: int, ganada: bool) returns (e: Estado)
    requires Covers(db, cartas)
    ensures e == EstadoOf(db, cartas, revealed, matched, movimientos, aciertos, ganada)
  {
    var list: seq<CartaEstado> := [];
    var i := 0;
    while i < |cartas|
      invariant 0 <= i <= |cartas|
      invariant |list| == i
      invariant forall k :: 0 <= k < i ==> list[k] == CartaEstadoOf(db, cartas[k], revealed, matched)
    {
      var cid := cartas[i];
      var carta := db[cid];
      var shown := cid in revealed || cid in matched;
      list := list + [CartaEstado(if shown then carta.simbolo else Some(""), cid in revealed, cid in matched)];
      i := i + 1;
    }
    e := Estado(list, movimientos, aciertos, ganada);
  }

  /**
   * Each card of the state carries its own flags, and a card that is neither
   * face up nor paired shows the empty symbol.
   */
  lemma EstadoCard(db: CardTable, cartas: seq<nat>, revealed: seq<nat>, matched: seq<nat>,
                   movimientos: int, aciertos: int, ganada: bool, i: int)
    requires Covers(db, cartas) && 0 <= i < |cartas|
    ensures var c := EstadoOf(db, cartas, revealed, matched, movimientos, aciertos, ganada).cartas[i];
            && c.revelada == (cartas[i] in revealed)
            && c.emparejada == (cartas[i] in matched)
            && c.simbolo == (if cartas[i] in revealed || cartas[i] in matched then db[cartas[i]].simbolo else Some(""))
  {
  }

  /** Two card tables agree on the symbols of every face-up or paired card of the board. */
  predicate SameShownSymbols(db1: CardTable, db2: CardTable, cartas: seq<nat>, revealed: seq<nat>, matched: seq<nat>)
    requires Covers(db1, cartas) && Covers(db2, cartas)
  {
    forall k :: 0 <= k < |cartas| && (cartas[k] in revealed || cartas[k] in matched) ==>
      db1[cartas[k]].simbolo == db2[cartas[k]].simbolo
  }

  /**
   * The state sent to the client does not depend on the symbols (nor on any
   * value) of face-down cards: two boards that differ only there give the
   * same state.
   */
  lemma EstadoHidesFaceDownCards(db1: CardTable, db2: CardTable, cartas: seq<nat>, revealed: seq<nat>,
                                 matched: seq<nat>, movimientos: int, aciertos: int, ganada: bool)
    requires Covers(db1, cartas) && Covers(db2, cartas)
    requires SameShownSymbols(db1, db2, cartas, revealed, matched)
    ensures EstadoOf(db1, cartas, revealed, matched, movimientos, aciertos, ganada)
         == EstadoOf(db2, cartas, revealed, matched, movimientos, aciertos, ganada)
  {
    var e1 := EstadoOf(db1, cartas, revealed, matched, movimientos, aciertos, ganada);
    var e2 := EstadoOf(db2, cartas, revealed, matched, movimientos, aciertos, ganada);
    forall k | 0 <= k < |cartas|
      ensures e1.cartas[k] == e2.cartas[k]
    {
      EstadoCard(db1, cartas, revealed, matched, movimientos, aciertos, ganada, k);
      EstadoCard(db2, cartas, revealed, matched, movimientos, aciertos, ganada, k);
    }
  }

  // ---------------------------------------------------------------------
  // The session's progress and one reveal on it
  // ---------------------------------------------------------------------

  /** The session keys `revealed`, `matched`, `movimientos` and `aciertos`. */
  datatype Progress = Progress(revealed: seq<nat>, matched: seq<nat>, movimientos: int, aciertos: int)

  const NewProgress := Progress([], [], 0, 0)

  /**
   * What the view keeps true of a session: at most one card waits face up,
   * no card is paired twice and none is both waiting and paired, every
   * listed id is on the board, two ids are paired per hit, and there are
   * never more hits than moves.
   */
  predicate Consistent(cartas: seq<nat>, p: Progress)
  {
    && |p.revealed| <= 1
    && LevelNavigation.Distinct(p.matched)
    && (forall id :: id in p.revealed ==> id !in p.matched && id in cartas)
    && (forall id :: id in p.matched ==> id in cartas)
    && |p.matched| == 2 * p.aciertos
    && 0 <= p.aciertos <= p.movimientos
  }

  /** `revealed` after the card `cid` is turned: appended unless it is already there. */
  function Turned(revealed: seq<nat>, cid: nat): seq<nat>
  {
    if cid in revealed then revealed else revealed + [cid]
  }

  /** Turning `cid` completes a pair of face-up cards, so the move is compared and counted. */
  predicate Compares(p: Progress, cid: nat)
  {
    |Turned(p.revealed, cid)| == 2
  }

  /** The ids of every face-up card and of the card being turned have rows. */
  predicate Known(db: CardTable, p: Progress, cid: nat)
  {
    cid in db && forall id :: id in p.revealed ==> id in db
  }

  /**
   * The progress after turning the unpaired card `cid`: with two cards face
   * up, one more move; equal values pair both ids and count a hit; either
   * way both cards go face down.
   */
  function Resolve(p: Progress, cid: nat, db: CardTable): (r: Progress)
    requires Known(db, p, cid)
    ensures Compares(p, cid) ==> r.revealed == [] && r.movimientos == p.movimientos + 1
    ensures !Compares(p, cid) ==> r == p.(revealed := Turned(p.revealed, cid))
    ensures p.aciertos <= r.aciertos <= p.aciertos + 1
    ensures r.matched == p.matched + (if r.aciertos > p.aciertos then Turned(p.revealed, cid) else [])
  {
    var rev := Turned(p.revealed, cid);
    if |rev| == 2 then
      var par := db[rev[0]].valor == db[rev[1]].valor;
      Progress([], if par then p.matched + rev else p.matched,
               p.movimientos + 1, if par then p.aciertos + 1 else p.aciertos)
    else
      Progress(rev, p.matched, p.movimientos, p.aciertos)
  }

  /** A consistent session stays consistent after any unpaired card of the board is turned. */
  lemma ResolveKeepsConsistent(cartas: seq<nat>, p: Progress, cid: nat, db: CardTable)
    requires Consistent(cartas, p) && Known(db, p, cid)
    requires cid in cartas && cid !in p.matched
    ensures Consistent(cartas, Resolve(p, cid, db))
  {
    var rev := Turned(p.revealed, cid);
    if |rev| == 2 && db[rev[0]].valor == db[rev[1]].valor {
      var m := p.matched + rev;
      assert rev == [p.revealed[0], cid];
      forall i, j | 0 <= i < j < |m|
        ensures m[i] != m[j]
      {
        if j >= |p.matched| {
          assert m[j] in rev;
          if i < |p.matched| { assert m[i] in p.matched; }
        }
      }
    }
  }

  /**
   * A move is counted exactly when a second, different card joins the one
   * waiting face up; otherwise the counters stay as they were.
   */
  lemma MoveCountedOnSecondCard(cartas: seq<nat>, p: Progress, cid: nat, db: CardTable)
    requires Consistent(cartas, p) && Known(db, p, cid)
    ensures Compares(p, cid) <==> |p.revealed| == 1 && p.revealed[0] != cid
    ensures var r := Resolve(p, cid, db);
            && r.movimientos == p.movimientos + (if Compares(p, cid) then 1 else 0)
            && (!Compares(p, cid) ==> r.aciertos == p.aciertos && r.matched == p.matched && r.revealed == Turned(p.revealed, cid))
  {
    if |p.revealed| == 1 && p.revealed[0] == cid {
      assert cid in p.revealed;
    }
  }

  /**
   * A compared move pairs the two cards, in the order they were turned, and
   * counts a hit exactly when their values are equal; both cards go face down.
   */
  lemma HitIffSameValue(cartas: seq<nat>, p: Progress, cid: nat, db: CardTable)
    requires Consistent(cartas, p) && Known(db, p, cid) && Compares(p, cid)
    ensures |p.revealed| == 1 && p.revealed[0] in db
    ensures var r := Resolve(p, cid, db);
            var par := db[p.revealed[0]].valor == db[cid].valor;
            && r.revealed == []
            && r.matched == (if par then p.matched + [p.revealed[0], cid] else p.matched)
            && r.aciertos == (if par then p.aciertos + 1 else p.aciertos)
  {
    MoveCountedOnSecondCard(cartas, p, cid, db);
    assert Turned(p.revealed, cid) == [p.revealed[0], cid];
  }

  /** Turning the card that is already waiting face up changes nothing. */
  lemma RepeatRevealChangesNothing(p: Progress, cid: nat, db: CardTable)
    requires p.revealed == [cid] && Known(db, p, cid)
    ensures Resolve(p, cid, db) == p
  {
    assert cid in p.revealed;
  }

  /** The distinct ids of a sequence. */
  function Elems(s: seq<nat>): set<nat>
  {
    set x | x in s
  }

  /** A sequence without duplicates has as many distinct elements as entries. */
  lemma {:induction false} DistinctCount(s: seq<nat>)
    requires LevelNavigation.Distinct(s)
    ensures |Elems(s)| == |s|
  {
    if |s| > 0 {
      var t := s[1..];
      assert LevelNavigation.Distinct(t);
      DistinctCount(t);
      assert Elems(s) == Elems(t) + {s[0]};
      assert s[0] !in Elems(t);
    }
  }

  /**
   * The two win tests of the view agree on a board of distinct card ids with
   * an even number of cards: the hit count reaching half the board (the test
   * that ends the game) and every card being paired (the `ganada` flag of
   * the state otherwise).
   */
  lemma WinTestsAgree(cartas: seq<nat>, p: Progress)
    requires Consistent(cartas, p) && LevelNavigation.Distinct(cartas) && |cartas| % 2 == 0
    ensures p.aciertos >= |cartas| / 2 <==> |p.matched| == |cartas|
  {
    DistinctCount(p.matched);
    DistinctCount(cartas);
    SubsetCard(Elems(p.matched), Elems(cartas));
  }

  lemma SubsetCard(a: set<nat>, b: set<nat>)
    requires a <= b
    ensures |a| <= |b|
  {
    assert b == a + (b - a);
  }

  /**
   * `actualizar_estadistica` for a level that exists: the user's active game
   * at that level, if any, is closed as won with the posted counters, and
   * the statistic row of (user, level) is updated with the posted figures.
   * `None` stands for the division by zero of a row whose total was -1;
   * the game has been saved by then.
   */
  method ActualizarEstadisticaView(partida: Engine.Game?, usuario: nat, nivel: Level, stats: StatsTable,
                                   tiempo: string, intentosText: string, paresText: string)
    returns (statsOut: Option<StatsTable>)
    requires partida != null ==> partida.activa && partida.usuario == usuario && partida.nivel == nivel
    modifies partida
    ensures partida != null ==>
              && partida.Tally() == Engine.Counters(PyText.ParseCount(intentosText), PyText.ParseCount(paresText), false, true)
              && partida.intentos == old(partida.intentos)
    ensures statsOut == PostedStats(stats, (usuario, nivel.id), tiempo, intentosText, paresText)
  {
    var intentos := PyText.ParseCount(intentosText);
    var pares := PyText.ParseCount(paresText);
    if partida != null {
      partida.CloseAsWon(intentos, pares);
    }
    statsOut := PostedStats(stats, (usuario, nivel.id), tiempo, intentosText, paresText);
  }

  /** The statistic table after the row of `key` records the posted figures. */
  function PostedStats(stats: StatsTable, key: (nat, nat), tiempo: string, intentosText: string, paresText: string)
    : Option<StatsTable>
  {
    var row := Statistics.ActualizarEstadistica(GetOrCreate(stats, key), tiempo, intentosText, paresText);
    if row.Some? then Some(stats[key := row.value]) else None
  }

  /**
   * On a table whose rows are all valid, the view's update never meets the
   * division by zero, and the rows stay valid.
   */
  lemma PostedStatsKeepsTableValid(stats: StatsTable, key: (nat, nat), tiempo: string,
                                   intentosText: string, paresText: string)
    requires TableValid(stats)
    ensures PostedStats(stats, key, tiempo, intentosText, paresText).Some?
    ensures TableValid(PostedStats(stats, key, tiempo, intentosText, paresText).value)
  {
    var current := GetOrCreate(stats, key);
    GetOrCreateValid(stats, key);
    var row := Statistics.ActualizarEstadistica(current, tiempo, intentosText, paresText);
    assert row.Some? && row.value.Valid();
    StoreValid(stats, key, row.value);
    assert PostedStats(stats, key, tiempo, intentosText, paresText) == Some(stats[key := row.value]);
  }

  /** The answer of the reveal view. */
  datatype Response =
    | PosicionInvalida
    | EstadoPartida(estado: Estado)
    | NivelGanado(estado: Estado, nivel: string, siguienteNivel: string)

  /** A board held in a user's session. */
  class Session {
    var cartas: seq<nat>
    var revealed: seq<nat>
    var matched: seq<nat>
    var movimientos: int
    var aciertos: int

    function State(): Progress
      reads this
    {
      Progress(revealed, matched, movimientos, aciertos)
    }

    ghost predicate Valid()
      reads this
    {
      Consistent(cartas, State())
    }

    /** The session as the board page stores it for a freshly dealt board of card ids. */
    constructor Start(ids: seq<nat>)
      ensures cartas == ids && State() == NewProgress && Valid()
    {
      cartas := ids;
      revealed := [];
      matched := [];
      movimientos := 0;
      aciertos := 0;
    }

    /**
     * The outcome of turning the unpaired card `cid` on a session that held
     * `before`: with a pair completed and the hits reaching half the board,
     * the level is won (the game is closed as a victory and recorded, and the
     * session keeps `before`); otherwise the session takes the resolved
     * progress and the game, on a compared move, its counters.
     */
    ghost predicate TurnedFrom(before: Progress, cid: nat, db: CardTable, partida: Engine.Game?,
                               niveles: seq<Level>, stats: StatsTable, resp: Response, statsOut: StatsTable)
      reads this, partida
      requires Covers(db, cartas) && Known(db, before, cid)
      requires partida != null ==> |niveles| > 0
    {
      var t := Resolve(before, cid, db);
      var compared := Compares(before, cid);
      if compared && partida != null && t.aciertos >= |cartas| / 2 then
        && resp == NivelGanado(EstadoOf(db, cartas, [], t.matched, t.movimientos, t.aciertos, true),
                               partida.nivel.nombre,
                               LevelNavigation.SiguienteNivel(niveles, partida.nivel.id).nombre)
        && State() == before
        && partida.Tally() == Engine.Counters(t.movimientos, t.aciertos, false, true)
        && statsOut == stats[partida.StatsKey() :=
             Statistics.RecordFinished(GetOrCreate(stats, partida.StatsKey()), true, t.movimientos)]
      else
        && resp == EstadoPartida(EstadoOf(db, cartas, t.revealed, t.matched, t.movimientos, t.aciertos,
                                          |t.matched| == |cartas|))
        && State() == t && statsOut == stats
        && (partida != null && compared ==>
              partida.movimientos == t.movimientos && partida.aciertos == t.aciertos && partida.activa)
    }

    /**
     * `reveal_card(request, pos)`. `partida` is the user's last active game,
     * if any, and `niveles` the levels in ascending difficulty. On a won
     * level the view answers before writing the session back, so the session
     * keeps its previous progress.
     */
    method RevealCard(pos: nat, db: CardTable, partida: Engine.Game?, niveles: seq<Level>, stats: StatsTable)
      returns (resp: Response, statsOut: StatsTable)
      requires Valid() && Covers(db, cartas)
      requires partida != null ==> partida.activa && |niveles| > 0
      modifies this, partida
      ensures cartas == old(cartas) && Valid()
      ensures pos >= |cartas| ==> resp == PosicionInvalida && State() == old(State()) && statsOut == stats
      ensures pos < |cartas| && cartas[pos] in old(matched) ==>
                resp == EstadoPartida(EstadoOf(db, cartas, old(revealed), old(matched), old(movimientos), old(aciertos), false))
                && State() == old(State()) && statsOut == stats
      ensures pos < |cartas| && cartas[pos] !in old(matched) ==>
                TurnedFrom(old(State()), cartas[pos], db, partida, niveles, stats, resp, statsOut)
      ensures partida != null ==> partida.intentos == old(partida.intentos)
      ensures partida != null && !(pos < |cartas| && cartas[pos] !in old(matched) && Compares(old(State()), cartas[pos])) ==>
                partida.Tally() == old(partida.Tally())
      ensures partida != null && partida.activa ==> partida.ganada == old(partida.ganada)
    {
      statsOut := stats;
      if pos >= |cartas| {
        resp := PosicionInvalida;
        return;
      }
      var cid := cartas[pos];
      if cid in matched {
        var estado := GenerarEstado(db, cartas, revealed, matched, movimientos, aciertos, false);
        resp := EstadoPartida(estado);
        return;
      }
      resp, statsOut := Turn(cid, db, partida, niveles, stats);
    }

    /** The part of `reveal_card` after the paired-card check: turning the unpaired card `cid`. */
    method Turn(cid: nat, db: CardTable, partida: Engine.Game?, niveles: seq<Level>, stats: StatsTable)
      returns (resp: Response, statsOut: StatsTable)
      requires Valid() && Covers(db, cartas) && cid in cartas && cid !in matched
      requires partida != null ==> partida.activa && |niveles| > 0
      modifies this, partida
      ensures cartas == old(cartas) && Valid()
      ensures TurnedFrom(old(State()), cid, db, partida, niveles, stats, resp, statsOut)
      ensures partida != null ==> partida.intentos == old(partida.intentos)
      ensures partida != null && !Compares(old(State()), cid) ==> partida.Tally() == old(partida.Tally())
      ensures partida != null && partida.activa ==> partida.ganada == old(partida.ganada)
    {
      ghost var before := State();
      ResolveKeepsConsistent(cartas, before, cid, db);
      var rev := revealed;
      if cid !in rev {
        rev := rev + [cid];
      }
      if |rev| == 2 {
        resp, statsOut := ComparePair(before, cid, rev, db, partida, niveles, stats);
      } else {
        statsOut := stats;
        revealed := rev;
        var estado := GenerarEstado(db, cartas, revealed, matched, movimientos, aciertos, |matched| == |cartas|);
        resp := EstadoPartida(estado);
      }
    }

    /**
     * The compared move of `reveal_card`: one more move, the two face-up
     * cards `rev` paired when their values are equal, the game's counters
     * updated and, once the hits reach half the board, the level won.
     */
    method ComparePair(ghost before: Progress, cid: nat, rev: seq<nat>, db: CardTable, partida: Engine.Game?,
                       niveles: seq<Level>, stats: StatsTable)
      returns (resp: Response, statsOut: StatsTable)
      requires Valid() && Covers(db, cartas) && Known(db, before, cid) && State() == before
      requires rev == Turned(before.revealed, cid) && |rev| == 2
      requires Consistent(cartas, Resolve(before, cid, db))
      requires partida != null ==> partida.activa && |niveles| > 0
      modifies this, partida
      ensures cartas == old(cartas) && Valid()
      ensures TurnedFrom(before, cid, db, partida, niveles, stats, resp, statsOut)
      ensures partida != null ==> partida.intentos == old(partida.intentos)
      ensures partida != null && partida.activa ==> partida.ganada == old(partida.ganada)
    {
      ghost var t := Resolve(before, cid, db);
      var mat, mov, ac := matched, movimientos + 1, aciertos;
      var carta1, carta2 := db[rev[0]], db[rev[1]];
      if carta1.valor == carta2.valor {
        mat := mat + rev;
        ac := ac + 1;
      }
      assert t == Progress([], mat, mov, ac);
      statsOut := stats;
      if partida != null {
        partida.movimientos := mov;
        partida.aciertos := ac;
        var totalPares := |cartas| / 2;
        if ac >= totalPares {
          partida.CloseAsWon(mov, ac);
          statsOut := stats[partida.StatsKey() :=
                        Statistics.RecordFinished(GetOrCreate(stats, partida.StatsKey()), true, mov)];
          var siguiente := LevelNavigation.SiguienteNivel(niveles, partida.nivel.id);
          var estado := GenerarEstado(db, cartas, [], mat, mov, ac, true);
          resp := NivelGanado(estado, partida.nivel.nombre, siguiente.nombre);
          return;
        }
      }
      revealed, matched, movimientos, aciertos := [], mat, mov, ac;
      var estado := GenerarEstado(db, cartas, revealed, matched, movimientos, aciertos, |matched| == |cartas|);
      resp := EstadoPartida(estado);
    }
  }
}
