/** Interface masks: an 8-bit word with a bit per interface (AXIOM_NULL_RT_INTERFACE is 0). */
module InterfaceMasks {

  /** Interface i as a mask. */
  function Bit(i: nat): (b: bv8)
    requires i < 8
    ensures b == 1 << i
  {
    match i
    case 0 => 1
    case 1 => 2
    case 2 => 4
    case 3 => 8
    case 4 => 16
    case 5 => 32
    case 6 => 64
    case _ => 128
  }

  /** Bit i of the word is set, counted from the lowest. */
  predicate Has(m: bv8, i: nat) {
    i < 8 && (m >> i) & 1 == 1
  }

  /** What the code tests with a shifted one. */
  lemma HasBit(m: bv8, i: nat)
    requires i < 8
    ensures Has(m, i) <==> m & Bit(i) != 0
  {
  }

  lemma HasOr(m: bv8, i: nat, j: nat)
    requires i < 8
    ensures Has(m | Bit(i), j) <==> Has(m, j) || j == i
  {
    if j < 8 {
      HasBit(m, j);
      HasBit(m | Bit(i), j);
      hide Has;
    }
  }

  lemma HasNone(m: bv8)
    ensures m == 0 <==> forall i :: 0 <= i < 8 ==> !Has(m, i)
  {
    if forall i :: 0 <= i < 8 ==> !Has(m, i) {
      assert !Has(m, 0) && !Has(m, 1) && !Has(m, 2) && !Has(m, 3);
      assert !Has(m, 4) && !Has(m, 5) && !Has(m, 6) && !Has(m, 7);
    }
  }
}
