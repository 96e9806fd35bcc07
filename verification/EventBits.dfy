/** The event masks of ev.c: ints read bit by bit. */
module EventBits {
  function Or(a: bv32, b: bv32): bv32 { a | b }

  /** Some bit of the mask is set. */
  predicate Has(events: bv32, mask: bv32) { events & mask != 0 }

  function And(a: bv32, b: bv32): bv32 { a & b }

  /** Nothing that is collected gets lost, and nothing is added. */
  lemma OrHas(a: bv32, b: bv32, mask: bv32)
    ensures Has(Or(a, b), mask) <==> Has(a, mask) || Has(b, mask)
  {
    hide Or, And, Has;
    HasAnd(a, mask);
    HasAnd(b, mask);
    HasAnd(Or(a, b), mask);
    AndOr(a, b, mask);
    OrIsZero(And(a, mask), And(b, mask));
  }

  lemma HasAnd(events: bv32, mask: bv32)
    ensures Has(events, mask) <==> And(events, mask) != 0
  {
  }

  lemma AndOr(a: bv32, b: bv32, mask: bv32)
    ensures And(Or(a, b), mask) == Or(And(a, mask), And(b, mask))
  {
  }

  lemma OrIsZero(a: bv32, b: bv32)
    ensures Or(a, b) == 0 <==> a == 0 && b == 0
  {
  }
}
