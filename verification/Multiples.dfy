/** Multiples of a unit: what rounding down and dividing exactly give. */
module Multiples {

  lemma {:induction false} MulMonotone(a: int, b: int, unit: nat)
    requires a <= b
    ensures a * unit <= b * unit
  {
    assert b * unit == a * unit + (b - a) * unit;
    MulNat(b - a, unit);
  }

  lemma {:induction false} MulNat(a: nat, b: nat)
    ensures a * b >= 0
  {
  }

  lemma {:induction false} MultipleOfUnit(k: nat, unit: nat)
    requires unit > 0
    ensures (k * unit) % unit == 0
  {
    var q, r := (k * unit) / unit, (k * unit) % unit;
    assert k * unit == q * unit + r;
    if k < q {
      MulMonotone(k + 1, q, unit);
      assert false;
    } else if q < k {
      MulMonotone(q + 1, k, unit);
      assert false;
    }
  }

  lemma {:induction false} AlignedDown(n: nat, unit: nat)
    requires unit > 0
    ensures var aligned := (n / unit) * unit; 0 <= aligned <= n < aligned + unit && aligned % unit == 0
  {
    assert (n / unit) * unit == n - n % unit;
    MultipleOfUnit(n / unit, unit);
  }

  /** The multiple of the unit below `n` is the last one. */
  lemma {:induction false} LastAligned(n: nat, unit: nat, k: nat)
    requires unit > 0 && k * unit <= n
    ensures k * unit <= (n / unit) * unit
  {
    var q := n / unit;
    assert n == q * unit + n % unit;
    if q < k {
      MulMonotone(q + 1, k, unit);
      assert false;
    }
    MulMonotone(k, q, unit);
  }

  lemma {:induction false} DivideBytes(size: nat, sector: nat)
    requires sector > 0
    ensures (size * sector) / sector == size
  {
    var q, r := (size * sector) / sector, (size * sector) % sector;
    assert size * sector == q * sector + r;
    if size < q {
      MulMonotone(size + 1, q, sector);
      assert false;
    } else if q < size {
      MulMonotone(q + 1, size, sector);
      assert false;
    }
  }
}
