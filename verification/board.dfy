/**
 * Board creation of the database-backed engine: how many pairs a level gets,
 * the card values `card_0 .. card_{n-1}` each doubled, and the in-place shuffle.
 */
module Board {
  import opened Wrappers
  import opened Models
  import PyText

  /**
   * The pair count of a level, by the engine's fallback chain: no level gives 2;
   * a non-zero `card_pairs` wins; then non-zero `rows` and `cols` give half their
   * product (Python's `//` by 2 equals Dafny's `/` by 2, also for negative
   * products); then the difficulty tier 1, 2, 3+ gives 6, 9, 12; anything else 2.
   */
  function PairCount(level: Option<Level>): (n: int)
    ensures level == None ==> n == 2
    ensures level.Some? && level.value.cardPairs.Some? && level.value.cardPairs.value != 0 ==>
              n == level.value.cardPairs.value
    ensures level.Some? && (level.value.cardPairs == None || level.value.cardPairs.value == 0)
              && level.value.rows.Some? && level.value.rows.value != 0
              && level.value.cols.Some? && level.value.cols.value != 0 ==>
              n * 2 <= level.value.rows.value * level.value.cols.value < n * 2 + 2
    ensures level.Some? && (level.value.cardPairs == None || level.value.cardPairs.value == 0)
              && !(level.value.rows.Some? && level.value.rows.value != 0
                   && level.value.cols.Some? && level.value.cols.value != 0) ==>
              n == (if level.value.dificultad == 1 then 6 else if level.value.dificultad == 2 then 9
                    else if level.value.dificultad >= 3 then 12 else 2)
  {
    match level
    case None => 2
    case Some(l) =>
      if l.cardPairs.Some? && l.cardPairs.value != 0 then l.cardPairs.value
      else if l.rows.Some? && l.rows.value != 0 && l.cols.Some? && l.cols.value != 0 then
        (l.rows.value * l.cols.value) / 2
      else if l.dificultad == 1 then 6
      else if l.dificultad == 2 then 9
      else if l.dificultad >= 3 then 12
      else 2
  }

  /**
   * For every level the ORM actually stores only the difficulty tier decides:
   * 6, 9 or 12 pairs for tiers 1, 2 and 3 or more, 2 pairs otherwise.
   */
  lemma StoredLevelPairCount(l: Level)
    requires l.IsStored()
    ensures PairCount(Some(l)) == (if l.dificultad == 1 then 6 else if l.dificultad == 2 then 9
                                   else if l.dificultad >= 3 then 12 else 2)
    ensures PairCount(Some(l)) in {2, 6, 9, 12}
  {
  }

  /**
   * The stored board size (`filas` x `columnas`) plays no part: two stored levels
   * of the same tier get the same number of pairs whatever their dimensions.
   */
  lemma PairCountIgnoresDimensions(a: Level, b: Level)
    requires a.IsStored() && b.IsStored() && a.dificultad == b.dificultad
    ensures PairCount(Some(a)) == PairCount(Some(b))
  {
  }

  /** Among stored levels from tier 1 up, a harder tier never gets fewer pairs. */
  lemma PairCountMonotone(a: Level, b: Level)
    requires a.IsStored() && b.IsStored() && 1 <= a.dificultad <= b.dificultad
    ensures PairCount(Some(a)) <= PairCount(Some(b))
  {
  }

  /** The value `f"card_{i}"` of the i-th pair. */
  function CardName(i: nat): (s: string)
    ensures |s| > 5 && s[..5] == "card_" && PyText.IsDigits(s[5..])
    ensures PyText.DigitsValue(s[5..]) == i
  {
    PyText.ShowNatRoundTrip(i);
    var s := "card_" + PyText.ShowNat(i);
    assert s[5..] == PyText.ShowNat(i);
    s
  }

  lemma CardNameInjective(i: nat, j: nat)
    requires CardName(i) == CardName(j)
    ensures i == j
  {
    assert CardName(i)[5..] == PyText.ShowNat(i);
    assert CardName(j)[5..] == PyText.ShowNat(j);
    PyText.ShowNatInjective(i, j);
  }

  lemma CardNameDistinct(i: nat, j: nat)
    requires i != j
    ensures CardName(i) != CardName(j)
  {
    if CardName(i) == CardName(j) {
      CardNameInjective(i, j);
    }
  }

  /** `[f"card_{i}" for i in range(n)]`: empty when `n` is not positive. */
  function Base(n: int): (b: seq<string>)
    ensures |b| == if n > 0 then n else 0
  {
    if n <= 0 then [] else Base(n - 1) + [CardName(n - 1)]
  }

  /** The name at index `i` is `card_i`. */
  lemma {:induction false} BaseAt(n: int, i: nat)
    requires i < n
    ensures Base(n)[i] == CardName(i)
    decreases n
  {
    if i < n - 1 {
      BaseAt(n - 1, i);
    }
  }

  /** Only the names `card_k` with `k < n` are among the first `n`. */
  lemma {:induction false} BaseNames(n: int, v: string)
    requires v in Base(n)
    ensures exists k: nat :: k < n && v == CardName(k)
    decreases n
  {
    if v != CardName(n - 1) {
      assert v in Base(n - 1);
      BaseNames(n - 1, v);
    }
  }

  /** `base + base[:]`: every value twice, before shuffling. */
  function Doubled(n: int): (d: seq<string>)
    ensures |d| == 2 * |Base(n)|
    ensures d[..|Base(n)|] == Base(n) && d[|Base(n)|..] == Base(n)
  {
    Base(n) + Base(n)
  }

  /** Each name `card_k` with `k < n` occurs once among the first `n` names; others never. */
  lemma {:induction false} BaseCount(n: nat, k: nat)
    ensures multiset(Base(n))[CardName(k)] == if k < n then 1 else 0
    decreases n
  {
    if n > 0 {
      BaseCount(n - 1, k);
      if k == n - 1 {
        CountAppendSame(Base(n - 1), CardName(k));
      } else {
        CardNameDistinct(n - 1, k);
        CountAppendOther(Base(n - 1), CardName(n - 1), CardName(k));
      }
    }
  }

  /** Appending `y` adds one occurrence of `y`. */
  lemma CountAppendSame(a: seq<string>, y: string)
    ensures multiset(a + [y])[y] == multiset(a)[y] + 1
  {
    assert multiset(a + [y]) == multiset(a) + multiset{y};
  }

  /** Appending `y` leaves the occurrences of any other `x` alone. */
  lemma CountAppendOther(a: seq<string>, y: string, x: string)
    requires x != y
    ensures multiset(a + [y])[x] == multiset(a)[x]
  {
    assert multiset(a + [y]) == multiset(a) + multiset{y};
  }

  /**
   * The doubled list holds exactly `2n` values: each `card_k` with `k < n`
   * exactly twice and nothing else.
   */
  lemma DoubledCounts(n: int)
    ensures |Doubled(n)| == 2 * (if n > 0 then n else 0)
    ensures forall k: nat :: multiset(Doubled(n))[CardName(k)] == if k < n then 2 else 0
    ensures forall v :: v in multiset(Doubled(n)) ==> exists k: nat :: k < n && v == CardName(k)
  {
    forall k: nat ensures multiset(Doubled(n))[CardName(k)] == if k < n then 2 else 0 {
      BaseCount(if n > 0 then n else 0, k);
    }
    forall v | v in multiset(Doubled(n)) ensures exists k: nat :: k < n && v == CardName(k) {
      BaseNames(n, v);
    }
  }

  /** The `random.shuffle` draw for index `i` lies in `[0, i]`. */
  predicate ValidDraws(draws: seq<nat>, len: nat)
  {
    |draws| == len && forall i :: 0 <= i < |draws| ==> draws[i] <= i
  }

  /**
   * `random.shuffle(a)`: Python's Fisher-Yates loop, with the random index
   * chosen for position `i` supplied as `draws[i]`. The result is a
   * rearrangement of the input.
   */
  method Shuffle(a: array<string>, draws: seq<nat>)
    requires ValidDraws(draws, a.Length)
    modifies a
    ensures multiset(a[..]) == old(multiset(a[..]))
  {
    var i := a.Length - 1;
    while i >= 1
      invariant -1 <= i < a.Length
      invariant multiset(a[..]) == old(multiset(a[..]))
      decreases i
    {
      var j := draws[i];
      a[i], a[j] := a[j], a[i];
      i := i - 1;
    }
  }

  /**
   * `_generate_values(n)`: the doubled list of names, shuffled. Every
   * `card_k` with `k < n` appears exactly twice and no other value appears.
   */
  method GenerateValues(n: int, draws: seq<nat>) returns (values: seq<string>)
    requires ValidDraws(draws, |Doubled(n)|)
    ensures multiset(values) == multiset(Doubled(n))
    ensures |values| == 2 * (if n > 0 then n else 0)
    ensures forall k: nat :: k < n ==> multiset(values)[CardName(k)] == 2
    ensures forall v :: v in values ==> exists k: nat :: k < n && v == CardName(k)
  {
    var base := Base(n);
    var doubled := base + base;
    var a := new string[|doubled|](i requires 0 <= i < |doubled| => doubled[i]);
    assert a[..] == doubled;
    Shuffle(a, draws);
    values := a[..];
    DoubledCounts(n);
    assert |values| == |multiset(values)| == |multiset(Doubled(n))|;
    forall v | v in values ensures exists k: nat :: k < n && v == CardName(k) {
      assert v in multiset(values);
    }
  }
}
