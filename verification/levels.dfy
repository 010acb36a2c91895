/**
 * Moving to the next level: the levels listed in ascending `dificultad`
 * order (the ordering itself is done by the database and is taken as given),
 * the current one looked up, and the one after it chosen, wrapping around
 * to the first; an unknown current level also yields the first.
 */
module LevelNavigation {
  import opened Wrappers
  import opened Models

  /** `next((i for i, x in enumerate(ks) if x == k), -1)`: the first index of `k`, or -1. */
  function FirstIndex<K(==)>(ks: seq<K>, k: K): (r: int)
    ensures -1 <= r < |ks|
    ensures r == -1 <==> k !in ks
    ensures r >= 0 ==> ks[r] == k && k !in ks[..r]
    decreases |ks|
  {
    if |ks| == 0 then -1
    else if ks[0] == k then 0
    else
      var r := FirstIndex(ks[1..], k);
      if r == -1 then -1 else r + 1
  }

  /** The index after the first occurrence of `k`, wrapping to 0; 0 when `k` is absent. */
  function NextIndex<K(==)>(ks: seq<K>, k: K): (r: nat)
    requires |ks| > 0
    ensures r < |ks|
    ensures k !in ks ==> r == 0
    ensures k in ks ==> r == (FirstIndex(ks, k) + 1) % |ks|
  {
    var i := FirstIndex(ks, k);
    WrapSuccessor(i, |ks|);
    if i + 1 < |ks| then i + 1 else 0
  }

  /** Stepping past index `i` of `n` entries and wrapping to 0 is adding one modulo `n`. */
  lemma WrapSuccessor(i: int, n: int)
    requires -1 <= i < n
    ensures 0 <= i ==> (i + 1) % n == if i + 1 < n then i + 1 else 0
  {
  }

  /** Keys that identify at most one level each. */
  predicate Distinct<K(==)>(ks: seq<K>)
  {
    forall i, j :: 0 <= i < j < |ks| ==> ks[i] != ks[j]
  }

  /**
   * With distinct keys the levels are visited in a cycle: the level after
   * the one at index `i` is the one at index `i + 1`, and after the last
   * comes the first again.
   */
  lemma NextIndexCycles<K>(ks: seq<K>, i: int)
    requires Distinct(ks) && 0 <= i < |ks|
    ensures NextIndex(ks, ks[i]) == (i + 1) % |ks|
  {
    var r := FirstIndex(ks, ks[i]);
    assert 0 <= r && ks[r] == ks[i];
    assert r == i;
  }

  function LevelIds(niveles: seq<Level>): (ids: seq<nat>)
    ensures |ids| == |niveles|
  {
    seq(|niveles|, i requires 0 <= i < |niveles| => niveles[i].id)
  }

  /** The level after the won one, found by its id (the win branch of the reveal view). */
  function SiguienteNivel(niveles: seq<Level>, nivelId: nat): (r: Level)
    requires |niveles| > 0
    ensures r in niveles
    ensures nivelId !in LevelIds(niveles) ==> r == niveles[0]
    ensures nivelId in LevelIds(niveles) ==>
              r == niveles[(FirstIndex(LevelIds(niveles), nivelId) + 1) % |niveles|]
  {
    niveles[NextIndex(LevelIds(niveles), nivelId)]
  }

  /** `s.lower()` for ASCII letters; other characters are kept. */
  function Lower(s: string): (r: string)
    ensures |r| == |s|
  {
    seq(|s|, i requires 0 <= i < |s| =>
      if 'A' <= s[i] <= 'Z' then ((s[i] as int) + 32) as char else s[i])
  }

  function LowerNames(niveles: seq<Level>): (names: seq<string>)
    ensures |names| == |niveles|
  {
    seq(|niveles|, i requires 0 <= i < |niveles| => Lower(niveles[i].nombre))
  }

  /**
   * The level after the one named `actualNombre`, compared without case
   * (`next_level` and `cambiar_nivel`). With no levels at all there is none:
   * `next_level` then falls back to its default page and `cambiar_nivel`
   * fails on `niveles[0]`.
   */
  function NextLevel(niveles: seq<Level>, actualNombre: string): (r: Option<Level>)
    ensures r.None? <==> |niveles| == 0
    ensures r.Some? ==> r.value in niveles
    ensures r.Some? && Lower(actualNombre) !in LowerNames(niveles) ==> r.value == niveles[0]
    ensures r.Some? && Lower(actualNombre) in LowerNames(niveles) ==>
              r.value == niveles[(FirstIndex(LowerNames(niveles), Lower(actualNombre)) + 1) % |niveles|]
  {
    if |niveles| == 0 then None
    else Some(niveles[NextIndex(LowerNames(niveles), Lower(actualNombre))])
  }

  /**
   * `cambiar_nivel`: the scan over the levels for the one named
   * `actualNombre` (without case), answering the level after it, or the
   * first level when the scan finds nothing; with no levels at all the
   * fallback `niveles[0]` fails, which is `None` here.
   */
  method CambiarNivel(niveles: seq<Level>, actualNombre: string) returns (siguiente: Option<Level>)
    ensures siguiente == NextLevel(niveles, actualNombre)
  {
    var actual := Lower(actualNombre);
    ghost var names := LowerNames(niveles);
    var i := 0;
    while i < |niveles|
      invariant 0 <= i <= |niveles|
      invariant actual !in names[..i]
    {
      if Lower(niveles[i].nombre) == actual {
        assert names[i] == actual;
        assert FirstIndex(names, actual) == i;
        siguiente := Some(if i + 1 < |niveles| then niveles[i + 1] else niveles[0]);
        return;
      }
      assert names[..i + 1] == names[..i] + [names[i]];
      i := i + 1;
    }
    assert names[..i] == names;
    siguiente := if |niveles| > 0 then Some(niveles[0]) else None;
  }

  /**
   * After winning the level at index `i` (levels with distinct ids) the
   * player is sent to the level at index `i + 1`, or back to the first.
   */
  lemma SiguienteNivelWraps(niveles: seq<Level>, i: int)
    requires Distinct(LevelIds(niveles)) && 0 <= i < |niveles|
    ensures SiguienteNivel(niveles, niveles[i].id) == niveles[(i + 1) % |niveles|]
  {
    NextIndexCycles(LevelIds(niveles), i);
  }

  /**
   * With level names that differ even without case, the level after the one
   * at index `i` is the one at index `i + 1`, or the first after the last.
   */
  lemma NextLevelWraps(niveles: seq<Level>, i: int)
    requires Distinct(LowerNames(niveles)) && 0 <= i < |niveles|
    ensures NextLevel(niveles, niveles[i].nombre) == Some(niveles[(i + 1) % |niveles|])
  {
    NextIndexCycles(LowerNames(niveles), i);
  }
}
