/**
 * The records of the game's data model (models.py): levels, cards and the
 * per-(user, level) statistic. Users are identified by a number; timestamps
 * are not modelled.
 */
module Models {
  import opened Wrappers

  /**
   * A level (`Nivel`). The stored fields are `nombre`, `dificultad`, `filas`
   * and `columnas`. The pair-count rule also asks the object for the
   * attributes `card_pairs`, `rows` and `cols`, which `Nivel` does not declare;
   * they are kept here as optional values so that the whole rule can be stated.
   */
  datatype Level = Level(
    id: nat,
    nombre: string,
    dificultad: int,
    filas: int,
    columnas: int,
    cardPairs: Option<int>,
    rows: Option<int>,
    cols: Option<int>)
  {
    /** A level as the ORM builds it: none of the extra attributes exist. */
    predicate IsStored() {
      cardPairs == None && rows == None && cols == None
    }
  }

  /** One card of a database-backed game; its position is its index in the board. */
  datatype Card = Card(valor: string, simbolo: string, revelada: bool, emparejada: bool)

  /** One logged two-card comparison (`Intento`), by the cards' positions. */
  datatype Intento = Intento(carta1: int, carta2: int, esCorrecto: bool)

  /** A statistic row (`Estadistica`); `promedioIntentos` is kept exact, without rounding. */
  datatype Estadistica = Estadistica(
    tiempo: string,
    intentos: int,
    paresEncontrados: int,
    totalPartidas: int,
    victorias: int,
    derrotas: int,
    promedioIntentos: real)
  {
    /**
     * What every stored statistic satisfies: counters are never negative and
     * each counted game is either a victory or a defeat.
     */
    predicate Valid() {
      victorias >= 0 && derrotas >= 0 && totalPartidas == victorias + derrotas
    }
  }

  /** A freshly created statistic row: the model's field defaults. */
  const NewEstadistica: Estadistica := Estadistica("00:00", 0, 0, 0, 0, 0, 0.0)

  /** Statistic rows keyed by (user, level id). */
  type StatsTable = map<(nat, nat), Estadistica>

  /** Every row of the table counts each game as exactly one victory or defeat. */
  predicate TableValid(t: StatsTable)
  {
    forall k :: k in t ==> t[k].Valid()
  }

  /** `Estadistica.objects.get_or_create(usuario=u, nivel=l)`: the row, or a new one. */
  function GetOrCreate(t: StatsTable, key: (nat, nat)): (r: Estadistica)
    ensures key in t ==> r == t[key]
    ensures key !in t ==> r == NewEstadistica
  {
    if key in t then t[key] else NewEstadistica
  }

  /** On a table of valid rows, the row found or created is valid too. */
  lemma GetOrCreateValid(t: StatsTable, key: (nat, nat))
    requires TableValid(t)
    ensures GetOrCreate(t, key).Valid()
  {
  }

  /** Replacing one row by a valid row keeps the table valid. */
  lemma StoreValid(t: StatsTable, key: (nat, nat), row: Estadistica)
    requires TableValid(t) && row.Valid()
    ensures TableValid(t[key := row])
  {
  }
}
