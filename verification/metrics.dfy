/**
 The two numbers the report shows next to a converted document: the size
 reduction percentage (app.py:96-99, shown as "smaller" when positive at
 app.py:149) and the unit `format_size` picks for a byte count
 (app.py:19-25). Python floats are replaced by exact reals.
 */
module Metrics {

  /** `((original - converted) / original) * 100`, or 0 for an empty upload. */
  function Reduction(original: nat, converted: nat): (r: real)
    // Solving the formula back for the converted size.
    ensures original > 0 ==> r * original as real == (original - converted) as real * 100.0
    ensures original == 0 ==> r == 0.0
    ensures r <= 100.0
    ensures r > 0.0 <==> converted < original
    ensures r == 0.0 <==> original == 0 || converted == original
  {
    if original > 0 then ((original - converted) as real / original as real) * 100.0 else 0.0
  }

  /** Converting more text never reports a bigger reduction. */
  lemma ReductionAntitone(original: nat, c1: nat, c2: nat)
    requires c1 <= c2
    ensures Reduction(original, c2) <= Reduction(original, c1)
  {
    if original > 0 {
      var o := original as real;
      var r1, r2 := Reduction(original, c1), Reduction(original, c2);
      assert r2 * o == (original - c2) as real * 100.0;
      assert r1 * o == (original - c1) as real * 100.0;
      assert (r1 - r2) * o >= 0.0;
    }
  }

  /** A 1000-byte upload converted to 600 bytes is reported 40% smaller. */
  lemma ReductionExample()
    ensures Reduction(1000, 600) == 40.0
    ensures Reduction(0, 600) == 0.0
  {
  }

  /** The units `format_size` tries in order; past the last one it uses "TB". */
  const Units: seq<string> := ["B", "KB", "MB", "GB", "TB"]

  /** 1024 to the power `k`. */
  function Scale(k: nat): (p: real)
    ensures p >= 1.0
  {
    if k == 0 then 1.0 else 1024.0 * Scale(k - 1)
  }

  /** `size` shown in unit `k` is below 1024. */
  predicate FitsIn(size: real, k: nat) {
    size < 1024.0 * Scale(k)
  }

  /** The unit `format_size` settles on, searching from unit `k`: the first
      that the size fits in, or "TB" once "GB" is passed. */
  function UnitFrom(size: real, k: nat): (u: nat)
    requires k <= 4
    decreases 4 - k
  {
    if k == 4 || FitsIn(size, k) then k else UnitFrom(size, k + 1)
  }

  /** The unit chosen for `size`. */
  function UnitOf(size: real): nat {
    UnitFrom(size, 0)
  }

  lemma {:induction false} UnitFromBounds(size: real, k: nat)
    requires k <= 4
    ensures k <= UnitFrom(size, k) <= 4
    ensures UnitFrom(size, k) < 4 ==> FitsIn(size, UnitFrom(size, k))
    ensures forall j :: k <= j < UnitFrom(size, k) ==> !FitsIn(size, j)
    decreases 4 - k
  {
    if k < 4 && !FitsIn(size, k) {
      UnitFromBounds(size, k + 1);
    }
  }

  /** A larger size never gets a smaller unit. */
  lemma {:induction false} UnitFromMonotone(a: real, b: real, k: nat)
    requires k <= 4
    requires a <= b
    ensures UnitFrom(a, k) <= UnitFrom(b, k)
    decreases 4 - k
  {
    if k < 4 && !FitsIn(a, k) {
      UnitFromMonotone(a, b, k + 1);
      UnitFromBounds(b, k + 1);
    } else {
      UnitFromBounds(b, k);
    }
  }

  lemma UnitMonotone(a: real, b: real)
    requires a <= b
    ensures UnitOf(a) <= UnitOf(b)
  {
    UnitFromMonotone(a, b, 0);
  }

  lemma ScaleStep(value: real, k: nat)
    ensures (value / 1024.0) * Scale(k + 1) == value * Scale(k)
  {
  }

  lemma FitsInScaled(value: real, size: real, k: nat)
    requires value * Scale(k) == size
    ensures FitsIn(size, k) <==> value < 1024.0
  {
    var p := Scale(k);
    if value < 1024.0 {
      assert value * p < 1024.0 * p;
    } else {
      assert value * p >= 1024.0 * p;
    }
  }

  /** `format_size`: the number shown and the unit it is shown in. The unit
      is the first of B, KB, MB, GB in which the number is below 1024, and
      TB when there is none; the number times the unit is the size. */
  method FormatSize(size: real) returns (value: real, unit: string)
    ensures unit == Units[UnitOf(size)]
    ensures value * Scale(UnitOf(size)) == size
    ensures unit != "TB" ==> value < 1024.0
  {
    value := size;
    var k: nat := 0;
    while k < 4
      invariant k <= 4
      invariant value * Scale(k) == size
      invariant UnitOf(size) == UnitFrom(size, k)
    {
      FitsInScaled(value, size, k);
      if value < 1024.0 {
        unit := Units[k];
        return;
      }
      ScaleStep(value, k);
      value := value / 1024.0;
      k := k + 1;
    }
    unit := Units[4];
  }
}
