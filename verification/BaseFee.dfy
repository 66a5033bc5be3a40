/**
 The fee-market repair: a base fee that ethermint stored as an integer is read back by
 cosmos/evm as an 18-decimal fixed-point number, and has to be scaled up exactly once.
 A LegacyDec is its raw integer; `None` is the nil value of an absent field.
 */
module BaseFee {
  import opened Options

  const ONE: int := 1_000_000_000_000_000_000

  /** Quotient by 10^18 of a non-negative raw product, rounded half to even. */
  function RoundHalfEven(x: nat): int
  {
    var quo, rem := x / ONE, x % ONE;
    if rem < ONE / 2 then quo
    else if rem > ONE / 2 then quo + 1
    else if quo % 2 == 0 then quo else quo + 1
  }

  /** LegacyDec.Mul on raw values: sign and magnitude are rounded separately. */
  function Mul(a: int, b: int): int
  {
    var product := a * b;
    if product < 0 then -RoundHalfEven(-product) else RoundHalfEven(product)
  }

  /** LegacyDec.TruncateInt: towards zero. */
  function TruncateInt(raw: int): int
  {
    if raw < 0 then -(-raw / ONE) else raw / ONE
  }

  /** LegacyNewDecFromInt */
  function FromInt(n: int): int
  {
    n * ONE
  }

  /** legacyDecScale: the number 10^18 as a LegacyDec. */
  const LEGACY_DEC_SCALE: int := ONE * ONE

  /** withRepairedBaseFee: the new fee and whether it changed. */
  function Repair(fee: Option<int>): (Option<int>, bool)
  {
    if fee.None? || fee.value <= 0 || fee.value >= ONE then (fee, false)
    else
      var legacy := TruncateInt(Mul(fee.value, LEGACY_DEC_SCALE));
      if legacy <= 0 then (fee, false) else (Some(FromInt(legacy)), true)
  }

  /** The raw value cosmos/evm reads from the bytes of a legacy integer: the same digits. */
  function Misread(n: int): Option<int>
  {
    Some(n)
  }

  /** Scaling by 10^18 and truncating loses nothing: no rounding takes place. */
  lemma ScaleExact(n: int)
    requires 0 <= n
    ensures Mul(n, LEGACY_DEC_SCALE) == n * ONE && TruncateInt(n * ONE) == n
  {
    var product := n * LEGACY_DEC_SCALE;
    assert product == (n * ONE) * ONE;
    DivExact(n * ONE);
    DivExact(n);
  }

  lemma DivExact(q: int)
    requires 0 <= q
    ensures (q * ONE) / ONE == q && (q * ONE) % ONE == 0
  {
  }

  /**
   The repair gives back the legacy integer exactly for the integers below 10^18, negative
   ones excepted; from 10^18 on the stored digits already look like a whole number.
   */
  lemma RepairRestores(n: int)
    ensures Repair(Misread(n)).0 == Some(FromInt(n)) <==> 0 <= n < ONE
    ensures 0 < n < ONE ==> Repair(Misread(n)).1
  {
    if 0 < n < ONE { ScaleExact(n); }
  }

  /** Only a positive value below one is touched, and it always is. */
  lemma RepairTouches(fee: Option<int>)
    ensures Repair(fee).1 <==> fee.Some? && 0 < fee.value < ONE
    ensures !Repair(fee).1 ==> Repair(fee).0 == fee
  {
    if fee.Some? && 0 < fee.value < ONE { ScaleExact(fee.value); }
  }

  /** A second application never rescales. */
  lemma RepairOnce(fee: Option<int>)
    ensures Repair(Repair(fee).0) == (Repair(fee).0, false)
  {
    RepairTouches(fee);
    if Repair(fee).1 {
      ScaleExact(fee.value);
    }
  }

  /** The product is rounded to the nearest multiple, a tie to the even one, alike on both sides of zero. */
  lemma MulRounds(a: int, b: int)
    ensures var q, x := Mul(a, b), a * b;
            && -ONE <= 2 * (x - q * ONE) <= ONE
            && (2 * (x - q * ONE) == ONE || 2 * (x - q * ONE) == -ONE ==> q % 2 == 0)
    ensures Mul(-a, b) == -Mul(a, b)
  {
    hide RoundHalfEven;
    var x := a * b;
    assert (-a) * b == -x;
    if x >= 0 { RoundsNearest(x); } else { RoundsNearest(-x); }
  }

  lemma RoundsNearest(x: nat)
    ensures var q := RoundHalfEven(x);
            && -ONE <= 2 * (x - q * ONE) <= ONE
            && (2 * (x - q * ONE) == ONE || 2 * (x - q * ONE) == -ONE ==> q % 2 == 0)
  {
  }

  /** Truncation goes towards zero. */
  lemma TruncatesTowardsZero(raw: int)
    ensures var t := TruncateInt(raw);
            && (raw >= 0 ==> t * ONE <= raw < (t + 1) * ONE) && (raw <= 0 ==> (t - 1) * ONE < raw <= t * ONE)
  {
  }
}
