/**
 The part of `resource.Quantity` the decoder uses: an int64 mantissa, a decimal scale and a display
 format. `Uint64Quantity` packs a uint64 into it, losing one decimal digit when it does not fit.
 */
module Quantities {
  const MAX_INT32 := 0x7FFF_FFFF
  const MIN_INT32 := -0x8000_0000
  const MAX_INT64 := 0x7FFF_FFFF_FFFF_FFFF
  const MIN_INT64 := -0x8000_0000_0000_0000
  const TWO_64 := 0x1_0000_0000_0000_0000

  type Uint64 = x: int | 0 <= x < TWO_64
  type Int64 = x: int | MIN_INT64 <= x <= MAX_INT64
  type Scale = x: int | MIN_INT32 <= x <= MAX_INT32

  datatype Format = NoFormat | DecimalSI | BinarySI

  datatype Quantity = Quantity(mantissa: Int64, scale: Scale, format: Format)

  const ZERO_QUANTITY := Quantity(0, 0, NoFormat)

  /** `resource.Scale(1) + scale` on an int32, wrapping as Go does. */
  function NextScale(scale: Scale): Scale {
    if scale == MAX_INT32 then MIN_INT32 else scale + 1
  }

  function Uint64Quantity(val: Uint64, scale: Scale): Quantity {
    if val <= MAX_INT64
    then Quantity(val, scale, DecimalSI)
    else Quantity(val / 10, NextScale(scale), DecimalSI)
  }

  function Pow10(n: nat): nat {
    if n == 0 then 1 else 10 * Pow10(n - 1)
  }

  /** The number a quantity stands for, counted in units of 10^scale. */
  function InUnits(q: Quantity, scale: Scale): int
    requires scale <= q.scale
  {
    q.mantissa * Pow10(q.scale - scale)
  }

  /** Whether the scale addition inside `Uint64Quantity` stays within an int32. */
  predicate ScaleFits(val: Uint64, scale: Scale) {
    val <= MAX_INT64 || scale < MAX_INT32
  }

  lemma ScaleNeverDropsIff(val: Uint64, scale: Scale)
    ensures scale <= Uint64Quantity(val, scale).scale <==> ScaleFits(val, scale)
  {
  }

  /**
   `q` stands for `raw` units of 10^scale: within 9, and exactly iff `raw` is at most MaxInt64 or a
   multiple of 10.
   */
  predicate Encodes(q: Quantity, raw: Uint64, scale: Scale, format: Format) {
    && q.format == format
    && scale <= q.scale
    && 0 <= raw - InUnits(q, scale) <= 9
    && (InUnits(q, scale) == raw <==> raw <= MAX_INT64 || raw % 10 == 0)
    && (raw <= MAX_INT64 ==> q.scale == scale && q.mantissa == raw)
  }

  /** The number encoded: the value itself up to MaxInt64, the value less its last decimal digit above. */
  function Encoded(val: Uint64): int {
    if val <= MAX_INT64 then val else val - val % 10
  }

  lemma EncodedInUnits(val: Uint64, scale: Scale)
    requires ScaleFits(val, scale)
    ensures scale <= Uint64Quantity(val, scale).scale
    ensures InUnits(Uint64Quantity(val, scale), scale) == Encoded(val)
  {
    assert Pow10(0) == 1;
    assert Pow10(1) == 10 * Pow10(0);
    if val > MAX_INT64 {
      assert Uint64Quantity(val, scale).scale - scale == 1;
    }
  }

  lemma PrecisionBound(val: Uint64, scale: Scale)
    requires ScaleFits(val, scale)
    ensures Encodes(Uint64Quantity(val, scale), val, scale, DecimalSI)
  {
    EncodedInUnits(val, scale);
  }

  lemma EncodedNearMonotone(a: Uint64, b: Uint64)
    requires a <= b
    ensures Encoded(a) <= Encoded(b) + 7
    ensures (a <= MAX_INT64 <==> b <= MAX_INT64) ==> Encoded(a) <= Encoded(b)
    ensures Encoded(a) == Encoded(b) + 7 <==> a == MAX_INT64 && MAX_INT64 < b <= MAX_INT64 + 2
  {
    assert MAX_INT64 % 10 == 7;
  }

  /** Encoding never reverses two values by more than 7 units, and never on one side of the branch. */
  lemma NearMonotone(a: Uint64, b: Uint64, scale: Scale)
    requires a <= b
    requires ScaleFits(a, scale) && ScaleFits(b, scale)
    ensures InUnits(Uint64Quantity(a, scale), scale) <= InUnits(Uint64Quantity(b, scale), scale) + 7
    ensures (a <= MAX_INT64 <==> b <= MAX_INT64) ==>
              InUnits(Uint64Quantity(a, scale), scale) <= InUnits(Uint64Quantity(b, scale), scale)
  {
    EncodedInUnits(a, scale);
    EncodedInUnits(b, scale);
    EncodedNearMonotone(a, b);
  }

  /** The slack of 7 is reached by MaxInt64 against its two successors, and by nothing else. */
  lemma SlackIsSevenIff(a: Uint64, b: Uint64, scale: Scale)
    requires a <= b && scale < MAX_INT32
    ensures InUnits(Uint64Quantity(a, scale), scale) == InUnits(Uint64Quantity(b, scale), scale) + 7
            <==> a == MAX_INT64 && MAX_INT64 < b <= MAX_INT64 + 2
  {
    EncodedInUnits(a, scale);
    EncodedInUnits(b, scale);
    EncodedNearMonotone(a, b);
  }
}
