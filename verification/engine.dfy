/**
 * The database-backed game engine: a game (`Partida`) owns an array of cards
 * indexed by position and the counters and flags that the resolver updates in
 * place; the table of games is what `create_game` closes and extends; the
 * statistic rows are passed in and handed back as a table keyed by
 * (user, level id).
 */
module Engine {
  import opened Wrappers
  import opened Models
  import opened EngineCards
  import Board
  import Statistics
  import PyText

  /** The serialized game (`serialize_game_state`). */
  datatype GameState = GameState(
    partidaId: string,
    movimientos: int,
    aciertos: int,
    activa: bool,
    ganada: bool,
    cartas: seq<CardView>)

  datatype RevealError = PartidaFinalizada | PosicionInvalida
  datatype IgnoreReason = YaEmparejada | YaRevelada

  /** The answer of `reveal_card`, one alternative per `status`. */
  datatype RevealResult =
    | Error(error: RevealError)
    | Ignored(reason: IgnoreReason)
    | FirstReveal(posicion: int, valor: string, simbolo: string, estado: GameState)
    | Checked(acierto: bool, otra: int, posicion: int,
              valores: (string, string), simbolos: (string, string), estado: GameState)

  /** The answer of `forfeit_game`. */
  datatype ForfeitResult = PartidaInvalida | MarcadaComoDerrota

  /** The counters and flags of a game, for stating what an operation leaves alone. */
  datatype Counters = Counters(movimientos: int, aciertos: int, activa: bool, ganada: bool)

  class Game {
    const id: nat
    const usuario: nat
    const nivel: Level
    const cards: array<Card>
    var movimientos: int
    var aciertos: int
    var activa: bool
    var ganada: bool
    /** The game's `Intento` rows, oldest first. */
    var intentos: seq<Intento>

    function StatsKey(): (nat, nat)
    {
      (usuario, nivel.id)
    }

    function Tally(): Counters
      reads this
    {
      Counters(movimientos, aciertos, activa, ganada)
    }

    /** What `serialize_game_state` returns for the current state. */
    function Snapshot(): GameState
      reads this, cards
    {
      GameState(PyText.ShowNat(id), movimientos, aciertos, activa, ganada, Views(cards[..]))
    }

    /**
     * A new active game with no moves, whose card at each position `pos`
     * carries `values[pos]` as value and symbol, face down and unmatched
     * (the card loop of `create_game`).
     */
    constructor (id: nat, usuario: nat, nivel: Level, values: seq<string>)
      ensures this.id == id && this.usuario == usuario && this.nivel == nivel
      ensures fresh(cards) && cards.Length == |values|
      ensures forall pos :: 0 <= pos < |values| ==> cards[pos] == Card(values[pos], values[pos], false, false)
      ensures Tally() == Counters(0, 0, true, false) && intentos == []
    {
      var a := new Card[|values|];
      var pos := 0;
      while pos < |values|
        invariant 0 <= pos <= |values|
        invariant forall k :: 0 <= k < pos ==> a[k] == Card(values[k], values[k], false, false)
      {
        a[pos] := Card(values[pos], values[pos], false, false);
        pos := pos + 1;
      }
      this.id, this.usuario, this.nivel, cards := id, usuario, nivel, a;
      movimientos, aciertos, activa, ganada, intentos := 0, 0, true, false, [];
    }

    /** `serialize_game_state`: the cards in position order, faces only where visible. */
    method Serialize() returns (s: GameState)
      ensures s == Snapshot()
    {
      var list: seq<CardView> := [];
      var i := 0;
      while i < cards.Length
        invariant 0 <= i <= cards.Length
        invariant |list| == i
        invariant forall k :: 0 <= k < i ==> list[k] == ViewOf(cards[k], k)
      {
        var c := cards[i];
        var shown := c.revelada || c.emparejada;
        list := list + [CardView(i, c.revelada, c.emparejada,
                                 if shown then Some(c.valor) else None,
                                 if shown then Some(c.simbolo) else None)];
        i := i + 1;
      }
      assert list == Views(cards[..]);
      s := GameState(PyText.ShowNat(id), movimientos, aciertos, activa, ganada, list);
    }

    /**
     * The state after a first reveal at `position` of a board that was
     * `before`: only that card turned face up; counters, log and statistics
     * unchanged; the answer shows the card and the serialized state.
     */
    ghost predicate FirstRevealFrom(before: seq<Card>, tally: Counters, log: seq<Intento>, position: int,
                                    res: RevealResult, stats: StatsTable, statsOut: StatsTable)
      reads this, cards
    {
      && 0 <= position < |before| == cards.Length
      && cards[..] == Flip(before, position)
      && Tally() == tally && intentos == log && statsOut == stats
      && res.FirstReveal? && res.posicion == position
      && res.valor == cards[position].valor && res.simbolo == cards[position].simbolo
      && res.estado == Snapshot()
    }

    /**
     * The state after a reveal at `position` that was compared with the other
     * face-up unmatched card `res.otra` of the board `before`: one more move;
     * equal values make both cards matched and count a hit; the comparison is
     * logged; reaching the level's pair count ends the game as won and records
     * it, once, in the statistic of the game's (user, level).
     */
    ghost predicate CheckedFrom(before: seq<Card>, tally: Counters, log: seq<Intento>, position: int,
                                res: RevealResult, stats: StatsTable, statsOut: StatsTable)
      reads this, cards
    {
      && 0 <= position < |before| == cards.Length
      && res.Checked? && res.posicion == position
      && res.otra in RevealedUnmatched(before)
      && res.acierto == (before[res.otra].valor == before[position].valor)
      && cards[..] == (if res.acierto then PairUp(Flip(before, position), res.otra, position)
                       else Flip(before, position))
      && movimientos == tally.movimientos + 1
      && aciertos == tally.aciertos + (if res.acierto then 1 else 0)
      && intentos == log + [Intento(res.otra, position, res.acierto)]
      && res.valores == (cards[res.otra].valor, cards[position].valor)
      && res.simbolos == (cards[res.otra].simbolo, cards[position].simbolo)
      && res.estado == Snapshot()
      && (if aciertos >= Board.PairCount(Some(nivel)) then
            !activa && ganada
            && statsOut == stats[StatsKey() := Statistics.RecordFinished(
                                   GetOrCreate(stats, StatsKey()), true, movimientos)]
          else
            activa == tally.activa && ganada == tally.ganada && statsOut == stats)
    }

    /**
     * `reveal_card`: the guards (finished game, no card at the position, card
     * already matched or already face up) change nothing; otherwise the card
     * turns face up and is either a first reveal, when no other card is face up
     * and unmatched, or is compared with such a card.
     */
    method RevealCard(position: int, stats: StatsTable) returns (res: RevealResult, statsOut: StatsTable)
      modifies this, cards
      ensures !old(activa) ==> res == Error(PartidaFinalizada)
      ensures old(activa) && !(0 <= position < cards.Length) ==> res == Error(PosicionInvalida)
      ensures old(activa) && 0 <= position < cards.Length && old(cards[position]).emparejada ==>
                res == Ignored(YaEmparejada)
      ensures (old(activa) && 0 <= position < cards.Length && !old(cards[position]).emparejada
               && old(cards[position]).revelada) ==> res == Ignored(YaRevelada)
      ensures res.Error? || res.Ignored? ==>
                cards[..] == old(cards[..]) && Tally() == old(Tally()) && intentos == old(intentos)
                && statsOut == stats
      ensures (old(activa) && 0 <= position < cards.Length && !old(cards[position]).emparejada
               && !old(cards[position]).revelada) ==>
                if RevealedUnmatched(old(cards[..])) == {} then
                  FirstRevealFrom(old(cards[..]), old(Tally()), old(intentos), position, res, stats, statsOut)
                else
                  CheckedFrom(old(cards[..]), old(Tally()), old(intentos), position, res, stats, statsOut)
      ensures statsOut != stats ==> old(activa) && !activa && ganada
      ensures |RevealedUnmatched(old(cards[..]))| <= 1 ==> |RevealedUnmatched(cards[..])| <= 2
    {
      statsOut := stats;
      if !activa {
        res := Error(PartidaFinalizada);
        return;
      }
      if !(0 <= position < cards.Length) {
        res := Error(PosicionInvalida);
        return;
      }
      var card := cards[position];
      if card.emparejada {
        res := Ignored(YaEmparejada);
        return;
      }
      if card.revelada {
        res := Ignored(YaRevelada);
        return;
      }
      ghost var before := cards[..];
      cards[position] := card.(revelada := true);
      assert cards[..] == Flip(before, position);
      FlipRevealedUnmatched(before, position);

      if !exists k :: 0 <= k < cards.Length && k != position && cards[k].revelada && !cards[k].emparejada {
        assert RevealedUnmatched(before) == {};
        var estado := Serialize();
        res := FirstReveal(position, cards[position].valor, cards[position].simbolo, estado);
        return;
      }
      // `.first()` of an unordered query: any other face-up unmatched card
      var other :| 0 <= other < cards.Length && other != position
                   && cards[other].revelada && !cards[other].emparejada;
      assert other in RevealedUnmatched(before);
      res, statsOut := ComparePair(position, other, before, stats);
      if |RevealedUnmatched(before)| <= 1 {
        RevealKeepsAtMostTwo(before, position, other, res.acierto);
      }
    }

    /** The second half of `reveal_card`: the comparison of the two face-up cards. */
    method ComparePair(position: int, other: int, ghost before: seq<Card>, stats: StatsTable)
      returns (res: RevealResult, statsOut: StatsTable)
      requires activa && 0 <= position < |before| == cards.Length && 0 <= other < cards.Length
      requires other != position && other in RevealedUnmatched(before)
      requires cards[..] == Flip(before, position)
      modifies this, cards
      ensures CheckedFrom(before, old(Tally()), old(intentos), position, res, stats, statsOut)
      ensures res.otra == other
    {
      var esPar := ScorePair(position, other, before);
      statsOut := stats;
      if aciertos >= Board.PairCount(Some(nivel)) {
        statsOut := CloseAndRecord(stats);
      }
      var estado := Serialize();
      var card, otherCard := cards[position], cards[other];
      res := Checked(esPar, other, position, (otherCard.valor, card.valor), (otherCard.simbolo, card.simbolo), estado);
    }

    /**
     * The card and counter update of a comparison: one more move; equal
     * values mark both cards as matched and count a hit; the comparison is
     * logged.
     */
    method ScorePair(position: int, other: int, ghost before: seq<Card>) returns (esPar: bool)
      requires 0 <= position < |before| == cards.Length && 0 <= other < cards.Length && other != position
      requires cards[..] == Flip(before, position)
      modifies this, cards
      ensures esPar == (before[other].valor == before[position].valor)
      ensures cards[..] == (if esPar then PairUp(Flip(before, position), other, position) else Flip(before, position))
      ensures movimientos == old(movimientos) + 1
      ensures aciertos == old(aciertos) + (if esPar then 1 else 0)
      ensures intentos == old(intentos) + [Intento(other, position, esPar)]
      ensures activa == old(activa) && ganada == old(ganada)
    {
      movimientos := movimientos + 1;
      var card, otherCard := cards[position], cards[other];
      esPar := otherCard.valor == card.valor;
      if esPar {
        cards[other] := otherCard.(emparejada := true);
        cards[position] := card.(emparejada := true);
        aciertos := aciertos + 1;
        assert cards[..] == PairUp(Flip(before, position), other, position);
      }
      intentos := intentos + [Intento(other, position, esPar)];
    }

    /** A won game: it is closed as a victory and recorded in the statistic of its (user, level). */
    method CloseAndRecord(stats: StatsTable) returns (statsOut: StatsTable)
      modifies this
      ensures Tally() == Counters(old(movimientos), old(aciertos), false, true)
      ensures intentos == old(intentos)
      ensures statsOut == stats[StatsKey() := Statistics.RecordFinished(GetOrCreate(stats, StatsKey()), true, old(movimientos))]
    {
      statsOut := stats[StatsKey() := Statistics.RecordFinished(GetOrCreate(stats, StatsKey()), true, movimientos)];
      CloseAsWon(movimientos, aciertos);
    }

    /** The game closed as won with the given counters. */
    method CloseAsWon(movimientos': int, aciertos': int)
      modifies this
      ensures Tally() == Counters(movimientos', aciertos', false, true)
      ensures intentos == old(intentos)
    {
      ganada := true;
      activa := false;
      movimientos := movimientos';
      aciertos := aciertos';
    }

    /**
     * `hide_unmatched(pos1, pos2)`: every named card that exists and is not
     * matched turns face down, and its position is reported; the counters
     * and flags are not touched (nor is the game's state checked).
     */
    method HideUnmatched(pos1: int, pos2: int) returns (ocultadas: seq<int>, estado: GameState)
      modifies cards
      ensures cards[..] == HideAt(old(cards[..]), {pos1, pos2})
      ensures forall i :: 0 <= i < |ocultadas| ==> 0 <= ocultadas[i] < cards.Length
      ensures forall i, j :: 0 <= i < j < |ocultadas| ==> ocultadas[i] != ocultadas[j]
      ensures forall p :: p in ocultadas <==>
                (p == pos1 || p == pos2) && 0 <= p < cards.Length && !old(cards[p]).emparejada
      ensures estado == Snapshot()
    {
      var named := if pos1 == pos2 then [pos1] else [pos1, pos2];
      ocultadas := HideEach(named);
      assert (set p | p in named) == {pos1, pos2};
      estado := Serialize();
    }

    /** The card loop of `hide_unmatched` over the distinct named positions `named`. */
    method HideEach(named: seq<int>) returns (ocultadas: seq<int>)
      requires forall i, j :: 0 <= i < j < |named| ==> named[i] != named[j]
      modifies cards
      ensures cards[..] == HideAt(old(cards[..]), set p | p in named)
      ensures forall i :: 0 <= i < |ocultadas| ==> 0 <= ocultadas[i] < cards.Length
      ensures forall i, j :: 0 <= i < j < |ocultadas| ==> ocultadas[i] != ocultadas[j]
      ensures forall p :: p in ocultadas <==> p in named && 0 <= p < cards.Length && !old(cards[p]).emparejada
    {
      ocultadas := [];
      ghost var done: set<int> := {};
      var i := 0;
      while i < |named|
        invariant 0 <= i <= |named|
        invariant done == set p | p in named[..i]
        invariant cards[..] == HideAt(old(cards[..]), done)
        invariant forall k :: 0 <= k < |ocultadas| ==> 0 <= ocultadas[k] < cards.Length
        invariant forall k, l :: 0 <= k < l < |ocultadas| ==> ocultadas[k] != ocultadas[l]
        invariant forall p :: p in ocultadas <==>
                    p in named[..i] && 0 <= p < cards.Length && !old(cards[p]).emparejada
      {
        var p := named[i];
        assert p !in named[..i];
        if 0 <= p < cards.Length {
          var c := cards[p];
          if !c.emparejada {
            cards[p] := c.(revelada := false);
            ocultadas := ocultadas + [p];
          }
        }
        assert named[..i + 1] == named[..i] + [p];
        done := done + {p};
        i := i + 1;
      }
      assert named[..i] == named;
    }
  }

  /**
   * `forfeit_game`: a missing or finished game is refused and nothing changes;
   * otherwise the game ends as lost and the statistic counts one more game and
   * one more defeat.
   */
  method ForfeitGame(game: Game?, stats: StatsTable) returns (r: ForfeitResult, statsOut: StatsTable)
    modifies game
    ensures game == null ==> r == PartidaInvalida && statsOut == stats
    ensures game != null && !old(game.activa) ==>
              r == PartidaInvalida && statsOut == stats && game.Tally() == old(game.Tally())
    ensures game != null && old(game.activa) ==>
              && r == MarcadaComoDerrota
              && game.Tally() == Counters(old(game.movimientos), old(game.aciertos), false, false)
              && statsOut == stats[game.StatsKey() := Statistics.RecordForfeit(GetOrCreate(stats, game.StatsKey()))]
    ensures game != null ==> game.intentos == old(game.intentos)
  {
    statsOut := stats;
    if game == null || !game.activa {
      r := PartidaInvalida;
      return;
    }
    game.activa := false;
    game.ganada := false;
    statsOut := stats[game.StatsKey() := Statistics.RecordForfeit(GetOrCreate(stats, game.StatsKey()))];
    r := MarcadaComoDerrota;
  }

  /**
   * The dealing part of `create_game`: the shuffled values of the level's
   * pair count, one per position, on a new active game with all cards face
   * down. (The source draws the values before it closes the earlier games;
   * drawing touches no game, so the order makes no difference.)
   */
  method Deal(id: nat, player: nat, level: Level, draws: seq<nat>) returns (g: Game)
    requires Board.ValidDraws(draws, |Board.Doubled(Board.PairCount(Some(level)))|)
    ensures fresh(g) && fresh(g.cards)
    ensures g.id == id && g.usuario == player && g.nivel == level
    ensures g.Tally() == Counters(0, 0, true, false) && g.intentos == []
    ensures g.cards.Length == |Board.Doubled(Board.PairCount(Some(level)))|
    ensures multiset(Valores(g.cards[..])) == multiset(Board.Doubled(Board.PairCount(Some(level))))
    ensures forall i :: 0 <= i < g.cards.Length ==>
              !g.cards[i].revelada && !g.cards[i].emparejada && g.cards[i].simbolo == g.cards[i].valor
  {
    var values := Board.GenerateValues(Board.PairCount(Some(level)), draws);
    g := new Game(id, player, level, values);
    assert Valores(g.cards[..]) == values;
  }

  /** The table of games (`Partida.objects`), in creation order. */
  class Registry {
    var games: seq<Game>
    var nextId: nat

    /** Distinct rows are distinct objects. */
    ghost predicate Valid()
      reads this
    {
      forall i, j :: 0 <= i < j < |games| ==> games[i] != games[j]
    }

    constructor ()
      ensures Valid() && games == []
    {
      games, nextId := [], 0;
    }

    /**
     * `create_game(player, level)`: every active game of the player, at any
     * level, is closed as not won; a new active game is appended whose
     * cards, all face down, hold the doubled list of card names of the
     * level's pair count `n` in some order (so each `card_k` with `k < n`
     * at exactly two positions, by `Board.DoubledCounts`).
     */
    method CreateGame(player: nat, level: Level, draws: seq<nat>) returns (g: Game)
      requires Valid()
      requires Board.ValidDraws(draws, |Board.Doubled(Board.PairCount(Some(level)))|)
      modifies this, games
      ensures Valid() && fresh(g) && fresh(g.cards)
      ensures games == old(games) + [g]
      ensures g.usuario == player && g.nivel == level
      ensures g.Tally() == Counters(0, 0, true, false) && g.intentos == []
      ensures g.cards.Length == |Board.Doubled(Board.PairCount(Some(level)))|
      ensures multiset(Valores(g.cards[..])) == multiset(Board.Doubled(Board.PairCount(Some(level))))
      ensures forall i :: 0 <= i < g.cards.Length ==>
                !g.cards[i].revelada && !g.cards[i].emparejada && g.cards[i].simbolo == g.cards[i].valor
      ensures forall i :: 0 <= i < |old(games)| ==>
                if games[i].usuario == player && old(games[i].activa) then
                  !games[i].activa && !games[i].ganada
                else
                  games[i].activa == old(games[i].activa) && games[i].ganada == old(games[i].ganada)
      ensures forall i :: 0 <= i < |old(games)| ==>
                games[i].movimientos == old(games[i].movimientos) && games[i].aciertos == old(games[i].aciertos)
                && games[i].intentos == old(games[i].intentos)
    {
      CloseActiveGames(player);
      g := Deal(nextId, player, level, draws);
      nextId := nextId + 1;
      games := games + [g];
    }

    /** The first step of `create_game`: every active game of `player` is closed as not won. */
    method CloseActiveGames(player: nat)
      requires Valid()
      modifies games
      ensures forall i :: 0 <= i < |games| ==>
                if games[i].usuario == player && old(games[i].activa) then
                  !games[i].activa && !games[i].ganada
                else
                  games[i].activa == old(games[i].activa) && games[i].ganada == old(games[i].ganada)
      ensures forall i :: 0 <= i < |games| ==>
                games[i].movimientos == old(games[i].movimientos) && games[i].aciertos == old(games[i].aciertos)
                && games[i].intentos == old(games[i].intentos)
    {
      var k := 0;
      while k < |games|
        invariant 0 <= k <= |games|
        invariant forall i :: 0 <= i < k ==>
                    if games[i].usuario == player && old(games[i].activa) then
                      !games[i].activa && !games[i].ganada
                    else
                      games[i].activa == old(games[i].activa) && games[i].ganada == old(games[i].ganada)
        invariant forall i :: k <= i < |games| ==>
                    games[i].activa == old(games[i].activa) && games[i].ganada == old(games[i].ganada)
        invariant forall i :: 0 <= i < |games| ==>
                    games[i].movimientos == old(games[i].movimientos) && games[i].aciertos == old(games[i].aciertos)
                    && games[i].intentos == old(games[i].intentos)
      {
        var h := games[k];
        if h.usuario == player && h.activa {
          h.activa, h.ganada := false, false;
        }
        k := k + 1;
      }
    }
  }
}
