/**
 Integer sample normalization, for every signed and unsigned source width.
 */
module Normalization {
  import opened Numeric
  import opened Audio

  /** A source integer type: its range and the value that stands for silence. */
  datatype Width = Width(low: int, mid: int, high: int) {
    predicate Valid() { low < mid < high }
  }

  function Signed(bits: nat): Width
    requires bits in {8, 16, 24, 32, 64}
  {
    match bits
    case 8 => Width(-0x80, 0, 0x7F)
    case 16 => Width(-0x8000, 0, 0x7FFF)
    case 24 => Width(-0x80_0000, 0, 0x7F_FFFF)
    case 32 => Width(-0x8000_0000, 0, 0x7FFF_FFFF)
    case _ => Width(I64_MIN, 0, I64_MAX)
  }

  function Unsigned(bits: nat): Width
    requires bits in {8, 16, 24, 32, 64}
  {
    match bits
    case 8 => Width(0, 0x80, 0xFF)
    case 16 => Width(0, 0x8000, 0xFFFF)
    case 24 => Width(0, 0x80_0000, 0xFF_FFFF)
    case 32 => Width(0, 0x8000_0000, 0xFFFF_FFFF)
    case _ => Width(0, 0x8000_0000_0000_0000, U64_MAX)
  }

  /** Each half of the range is scaled to its half of 16 bits, rounding toward silence. */
  function Scaled(w: Width, value: int): int
    requires w.Valid()
  {
    if value >= w.mid then TruncDiv((value - w.mid) * I16_MAX, w.high - w.mid)
    else TruncDiv((value - w.mid) * -I16_MIN, w.mid - w.low)
  }

  /** The sample and whether it is clipped; `None` when the scaled value leaves 16 bits. */
  function Normalize(w: Width, value: int): Option<(i16, bool)>
    requires w.Valid()
  {
    var scaled := Scaled(w, value);
    if I16_MIN <= scaled <= I16_MAX then Some((scaled, value == w.low || value == w.high)) else None
  }

  lemma ScaledHalf(distance: nat, span: nat, top: nat)
    requires 0 < span && distance <= span
    ensures 0 <= distance * top / span <= top
    ensures distance == span ==> distance * top / span == top
  {
    ProductMonotone(distance, span, top);
    QuotientBound(distance * top, span, top + 1);
    ProductStep(top, span);
    DivisionIdentity(distance * top, span);
    QuotientBound(distance * top, span, top);
  }

  lemma HalfMonotone(a: nat, b: nat, span: nat, top: nat)
    requires 0 < span && a <= b
    ensures a * top / span <= b * top / span
  {
    ProductMonotone(a, b, top);
    DivisionIdentity(a * top, span);
    QuotientBound(a * top, span, a * top / span);
    QuotientBound(b * top, span, a * top / span);
  }

  lemma ScaledAsHalves(w: Width, value: int)
    requires w.Valid() && w.low <= value <= w.high
    ensures Scaled(w, value) == if value >= w.mid then (value - w.mid) * I16_MAX / (w.high - w.mid)
                                else -((w.mid - value) * -I16_MIN / (w.mid - w.low))
  {
    if value >= w.mid {
      ProductMonotone(0, value - w.mid, I16_MAX);
    } else {
      ProductNegation(w.mid - value, -I16_MIN);
      ProductMonotone(1, w.mid - value, -I16_MIN);
    }
  }

  /** No integer value fails to normalize; silence is zero and the ends of the range are the ends of 16
      bits. */
  lemma NormalizeTotal(w: Width, value: int)
    requires w.Valid() && w.low <= value <= w.high
    ensures Normalize(w, value).Some?
    ensures value == w.mid ==> Normalize(w, value).value.0 == 0
    ensures value == w.low ==> Normalize(w, value).value.0 == I16_MIN
    ensures value == w.high ==> Normalize(w, value).value.0 == I16_MAX
  {
    ScaledAsHalves(w, value);
    if value >= w.mid {
      ScaledHalf(value - w.mid, w.high - w.mid, I16_MAX);
    } else {
      ScaledHalf(w.mid - value, w.mid - w.low, -I16_MIN);
    }
    hide Scaled;
  }

  /** The size of the sample is the value's share of its half of the range, rounded down; only the two ends of the range
      count as clipped. */
  lemma NormalizeExact(w: Width, value: int)
    requires w.Valid() && w.low <= value <= w.high
    ensures Normalize(w, value).Some?
    ensures var (sample: int, clipped) := (Normalize(w, value).value.0, Normalize(w, value).value.1);
            && (value >= w.mid ==>
                  sample * (w.high - w.mid) <= (value - w.mid) * 32_767 < (sample + 1) * (w.high - w.mid))
            && (value < w.mid ==>
                  (0 - sample) * (w.mid - w.low) <= (w.mid - value) * 32_768 < (1 - sample) * (w.mid - w.low))
            && (clipped <==> value == w.low || value == w.high)
  {
    NormalizeTotal(w, value);
    ScaledAsHalves(w, value);
    var sample: int := Normalize(w, value).value.0;
    if value >= w.mid {
      ProductMonotone(0, value - w.mid, 32_767);
      DivisionIdentity((value - w.mid) * 32_767, w.high - w.mid);
      ProductStep(sample, w.high - w.mid);
    } else {
      ProductMonotone(0, w.mid - value, 32_768);
      DivisionIdentity((w.mid - value) * 32_768, w.mid - w.low);
      ProductStep(0 - sample, w.mid - w.low);
    }
    hide Scaled;
  }

  /** Two's complement and offset binary: a type of `bits` bits has as many values on either side of silence. */
  lemma WidthVerdict(bits: nat)
    requires bits in {8, 16, 24, 32, 64}
    ensures var (s, u) := (Signed(bits), Unsigned(bits));
            var half := if bits == 8 then 0x80 else if bits == 16 then 0x8000 else if bits == 24 then 0x80_0000
                        else if bits == 32 then 0x8000_0000 else 0x8000_0000_0000_0000;
            && s.mid == 0 && s.low == -half && s.high == half - 1
            && u.mid == half && u.low == 0 && u.high == 2 * half - 1
  {
  }

  /** Normalization keeps order. */
  lemma NormalizeMonotone(w: Width, a: int, b: int)
    requires w.Valid() && w.low <= a <= b <= w.high
    ensures Normalize(w, a).Some? && Normalize(w, b).Some?
    ensures Normalize(w, a).value.0 <= Normalize(w, b).value.0
  {
    NormalizeTotal(w, a);
    NormalizeTotal(w, b);
    ScaledAsHalves(w, a);
    ScaledAsHalves(w, b);
    hide Scaled;
    if a >= w.mid {
      HalfMonotone(a - w.mid, b - w.mid, w.high - w.mid, I16_MAX);
    } else if b < w.mid {
      HalfMonotone(w.mid - b, w.mid - a, w.mid - w.low, -I16_MIN);
    } else {
      ScaledHalf(b - w.mid, w.high - w.mid, I16_MAX);
      ScaledHalf(w.mid - a, w.mid - w.low, -I16_MIN);
    }
  }

  /** So every value of every supported signed and unsigned type has a sample. */
  lemma EveryWidthNormalizes(bits: nat, value: int)
    requires bits in {8, 16, 24, 32, 64}
    ensures Signed(bits).Valid() && Unsigned(bits).Valid()
    ensures Signed(bits).low <= value <= Signed(bits).high ==> Normalize(Signed(bits), value).Some?
    ensures Unsigned(bits).low <= value <= Unsigned(bits).high ==> Normalize(Unsigned(bits), value).Some?
  {
    var (signed, unsigned) := (Signed(bits), Unsigned(bits));
    assert signed.Valid() && unsigned.Valid();
    hide Signed, Unsigned, Normalize;
    if signed.low <= value <= signed.high { NormalizeTotal(signed, value); }
    if unsigned.low <= value <= unsigned.high { NormalizeTotal(unsigned, value); }
  }

  /** 16-bit signed input passes through unchanged. */
  lemma SixteenBitsUnchanged(value: i16)
    ensures Normalize(Signed(16), value) == Some((value, value == I16_MIN || value == I16_MAX))
  {
  }
}
