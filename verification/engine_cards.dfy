/**
 * The card-level specification of the database-backed engine: what the client
 * is shown of a board, and how revealing, pairing and hiding change the cards.
 * A board is the sequence of its cards ordered by position.
 */
module EngineCards {
  import opened Wrappers
  import opened Models

  /** One card as serialized for the client; value and symbol only when visible. */
  datatype CardView = CardView(
    posicion: int,
    revelada: bool,
    emparejada: bool,
    valor: Option<string>,
    simbolo: Option<string>)

  /** A card's face is visible when it is revealed or already matched. */
  predicate Visible(c: Card)
  {
    c.revelada || c.emparejada
  }

  function ViewOf(c: Card, posicion: int): CardView
  {
    CardView(posicion, c.revelada, c.emparejada,
             if Visible(c) then Some(c.valor) else None,
             if Visible(c) then Some(c.simbolo) else None)
  }

  /** The serialized cards, in position order. */
  function Views(cs: seq<Card>): (vs: seq<CardView>)
    ensures |vs| == |cs|
  {
    seq(|cs|, i requires 0 <= i < |cs| => ViewOf(cs[i], i))
  }

  /**
   * The serialized state lists the cards by position, copies both flags, and
   * carries a value or a symbol exactly for the visible cards.
   */
  lemma ViewsWithholdHidden(cs: seq<Card>, i: int)
    requires 0 <= i < |cs|
    ensures Views(cs)[i].posicion == i
    ensures Views(cs)[i].revelada == cs[i].revelada && Views(cs)[i].emparejada == cs[i].emparejada
    ensures Views(cs)[i].valor.Some? <==> Visible(cs[i])
    ensures Views(cs)[i].simbolo.Some? <==> Visible(cs[i])
    ensures Visible(cs[i]) ==> Views(cs)[i].valor == Some(cs[i].valor) && Views(cs)[i].simbolo == Some(cs[i].simbolo)
  {
  }

  /** Two boards with the same flags and the same visible faces. */
  predicate SameVisibleFaces(a: seq<Card>, b: seq<Card>)
  {
    |a| == |b| &&
    forall i :: 0 <= i < |a| ==>
      a[i].revelada == b[i].revelada && a[i].emparejada == b[i].emparejada &&
      (Visible(a[i]) ==> a[i].valor == b[i].valor && a[i].simbolo == b[i].simbolo)
  }

  /**
   * Information hiding: the values under hidden cards do not influence what is
   * serialized, so two boards that differ only there look the same to the client.
   */
  lemma HiddenValuesDoNotLeak(a: seq<Card>, b: seq<Card>)
    requires SameVisibleFaces(a, b)
    ensures Views(a) == Views(b)
  {
    forall i | 0 <= i < |a| ensures Views(a)[i] == Views(b)[i] {
      assert Views(a)[i] == ViewOf(a[i], i) && Views(b)[i] == ViewOf(b[i], i);
    }
  }

  /** The values of the cards, in position order. */
  function Valores(cs: seq<Card>): (vs: seq<string>)
    ensures |vs| == |cs|
  {
    seq(|cs|, i requires 0 <= i < |cs| => cs[i].valor)
  }

  /** The positions of the cards that are face up but not yet part of a pair. */
  function RevealedUnmatched(cs: seq<Card>): set<int>
  {
    set i | 0 <= i < |cs| && cs[i].revelada && !cs[i].emparejada
  }

  /** Turning the card at `p` face up. */
  function Flip(cs: seq<Card>, p: int): (r: seq<Card>)
    requires 0 <= p < |cs|
    ensures |r| == |cs|
    ensures forall i :: 0 <= i < |cs| ==>
              && r[i].valor == cs[i].valor && r[i].simbolo == cs[i].simbolo
              && r[i].emparejada == cs[i].emparejada
              && r[i].revelada == (cs[i].revelada || i == p)
  {
    cs[p := cs[p].(revelada := true)]
  }

  /** Marking the cards at `p` and `q` as a found pair. */
  function PairUp(cs: seq<Card>, p: int, q: int): (r: seq<Card>)
    requires 0 <= p < |cs| && 0 <= q < |cs|
    ensures |r| == |cs|
    ensures forall i :: 0 <= i < |cs| ==>
              && r[i].valor == cs[i].valor && r[i].simbolo == cs[i].simbolo
              && r[i].revelada == cs[i].revelada
              && r[i].emparejada == (cs[i].emparejada || i == p || i == q)
  {
    var cs' := cs[p := cs[p].(emparejada := true)];
    cs'[q := cs'[q].(emparejada := true)]
  }

  /** Turning face down each card at a position in `targets` that is not matched. */
  function HideAt(cs: seq<Card>, targets: set<int>): (r: seq<Card>)
    ensures |r| == |cs|
    ensures forall i :: 0 <= i < |cs| ==>
              && r[i].valor == cs[i].valor && r[i].simbolo == cs[i].simbolo
              && r[i].emparejada == cs[i].emparejada
              && r[i].revelada == (cs[i].revelada && (i !in targets || cs[i].emparejada))
  {
    seq(|cs|, i requires 0 <= i < |cs| =>
      if i in targets && !cs[i].emparejada then cs[i].(revelada := false) else cs[i])
  }

  lemma FlipRevealedUnmatched(cs: seq<Card>, p: int)
    requires 0 <= p < |cs| && !cs[p].emparejada
    ensures RevealedUnmatched(Flip(cs, p)) == RevealedUnmatched(cs) + {p}
  {
  }

  lemma PairUpRevealedUnmatched(cs: seq<Card>, p: int, q: int)
    requires 0 <= p < |cs| && 0 <= q < |cs|
    ensures RevealedUnmatched(PairUp(cs, p, q)) == RevealedUnmatched(cs) - {p, q}
  {
  }

  /**
   * The resolver does not hide cards after a mismatch, so the number of face-up
   * unmatched cards is only bounded relative to the state before a reveal: when
   * at most one was face up, a first reveal leaves exactly the new card, a
   * match leaves none and a mismatch leaves exactly the two compared cards.
   */
  lemma {:induction false} RevealKeepsAtMostTwo(cs: seq<Card>, p: int, other: int, match_: bool)
    requires 0 <= p < |cs| && !cs[p].revelada && !cs[p].emparejada
    requires |RevealedUnmatched(cs)| <= 1
    requires other in RevealedUnmatched(cs)
    ensures match_ ==> RevealedUnmatched(PairUp(Flip(cs, p), other, p)) == {}
    ensures !match_ ==> RevealedUnmatched(Flip(cs, p)) == {other, p}
    ensures |RevealedUnmatched(if match_ then PairUp(Flip(cs, p), other, p) else Flip(cs, p))| <= 2
  {
    var before := RevealedUnmatched(cs);
    assert before == {other} by {
      assert |before - {other}| == |before| - 1 == 0;
      assert before - {other} == {};
    }
    FlipRevealedUnmatched(cs, p);
    var flipped := Flip(cs, p);
    assert other < |flipped|;
    PairUpRevealedUnmatched(flipped, other, p);
    assert |{other, p}| <= 2;
  }

  /**
   * Hiding turns face down exactly the named unmatched cards; matched cards
   * and all other cards keep their state.
   */
  lemma HideAtEffect(cs: seq<Card>, targets: set<int>, i: int)
    requires 0 <= i < |cs|
    ensures |HideAt(cs, targets)| == |cs|
    ensures i in targets && !cs[i].emparejada ==> HideAt(cs, targets)[i] == cs[i].(revelada := false)
    ensures !(i in targets && !cs[i].emparejada) ==> HideAt(cs, targets)[i] == cs[i]
    ensures RevealedUnmatched(HideAt(cs, targets)) == RevealedUnmatched(cs) - targets
  {
  }

  /** Hiding the same positions twice leaves the cards as hiding them once. */
  lemma HideAtIdempotent(cs: seq<Card>, targets: set<int>)
    ensures HideAt(HideAt(cs, targets), targets) == HideAt(cs, targets)
  {
  }
}
