/** The few facts about multiplication and division that the bounds need. */
module Arithmetic {

  lemma DivBounds(a: nat, b: nat)
    requires b > 0
    ensures (a / b) * b <= a < (a / b + 1) * b
  {}

  lemma AtLeastOnce(x: int, w: nat)
    requires x >= 1
    ensures x * w >= w
  {}

  /** Strictness included: a * w < b * w forces a < b. */
  lemma DivideOut(a: int, b: int, w: nat)
    requires w > 0
    ensures a * w <= b * w ==> a <= b
    ensures a * w < b * w ==> a < b
  {
    assert (a - b) * w == a * w - b * w;
    if a > b { AtLeastOnce(a - b, w); }
  }

  lemma FloorMonotone(a: nat, b: nat, w: nat)
    requires w > 0 && a <= b
    ensures a / w <= b / w
  {
    DivBounds(a, w);
    DivBounds(b, w);
    DivideOut(a / w, b / w + 1, w);
  }

  lemma FloorShift(a: nat, w: nat)
    requires w > 0
    ensures (a + w) / w == a / w + 1
  {
    DivBounds(a, w);
    DivBounds(a + w, w);
    var q, q' := a / w, (a + w) / w;
    assert (q + 1) * w == q * w + w && (q + 2) * w == q * w + w + w;
    DivideOut(q + 1, q' + 1, w);
    DivideOut(q', q + 2, w);
  }
}
