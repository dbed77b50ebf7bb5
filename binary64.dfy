/**
 * Python floats as the shared buffer stores them. A float is its IEEE 754 binary64 bit
 * pattern; `struct.pack_into("d", ...)` and `struct.unpack("d", ...)` move that pattern to
 * and from eight bytes in native (little-endian) order. `Value` gives the number a pattern
 * denotes, which is what Python's comparisons look at.
 */
module Binary64 {

  datatype Float = Float(bits: bv64)

  const Zero: Float := Float(0)
  const NegativeZero: Float := Float(0x8000_0000_0000_0000)

  function SignBit(f: Float): bv64 { f.bits >> 63 }
  function ExponentField(f: Float): bv64 { (f.bits >> 52) & 0x7FF }
  function FractionField(f: Float): bv64 { f.bits & 0xF_FFFF_FFFF_FFFF }

  /** The extended reals with not-a-number: what a float denotes. */
  datatype Ext = Fin(r: real) | PosInf | NegInf | NaN

  /** The number a bit pattern denotes: normal, subnormal, infinite or not-a-number. */
  function Value(f: Float): Ext {
    if ExponentField(f) == 0x7FF then
      if FractionField(f) != 0 then NaN else if SignBit(f) == 0 then PosInf else NegInf
    else
      Fin(if SignBit(f) == 0 then Magnitude(f) else -Magnitude(f))
  }

  /** The absolute value a finite pattern denotes: its significand times a power of two. */
  function Magnitude(f: Float): real {
    var e := ExponentField(f);
    var significand := if e == 0 then ToNat(FractionField(f)) else ToNat(FractionField(f)) + 0x10_0000_0000_0000;
    Scale(significand, (if e == 0 then 1 else ToNat(e)) - 1075)
  }

  /** The unsigned number a bit pattern spells. */
  function ToNat(x: bv64): nat
    decreases x
  {
    if x == 0 then 0 else 2 * ToNat(x >> 1) + (if x & 1 == 1 then 1 else 0)
  }

  /** `n` times two to the power `k`. */
  function Scale(n: nat, k: int): real
    decreases if k < 0 then -k else k
  {
    if k == 0 then n as real
    else if k > 0 then 2.0 * Scale(n, k - 1)
    else Scale(n, k + 1) / 2.0
  }

  /** A bit pattern spells zero only when every bit is clear. */
  lemma {:induction false} ToNatZero(x: bv64)
    ensures ToNat(x) == 0 <==> x == 0
    decreases x
  {
    if x != 0 {
      if x >> 1 == 0 {
        assert x & 1 == 1;
      } else {
        ToNatZero(x >> 1);
      }
    }
  }

  /** Scaling by a power of two keeps the sign, and zero only comes from zero. */
  lemma {:induction false} ScaleSign(n: nat, k: int)
    ensures Scale(n, k) >= 0.0
    ensures Scale(n, k) == 0.0 <==> n == 0
    decreases if k < 0 then -k else k
  {
    if k > 0 {
      ScaleSign(n, k - 1);
    } else if k < 0 {
      ScaleSign(n, k + 1);
    }
  }

  /** `np.isfinite(f)`. */
  predicate IsFinite(f: Float) {
    ExponentField(f) != 0x7FF
  }

  /** `a <= b` on denoted values; every comparison with NaN is false. */
  predicate LessOrEqual(a: Ext, b: Ext) {
    && !a.NaN? && !b.NaN?
    && (a.NegInf? || b.PosInf? || (a.Fin? && b.Fin? && a.r <= b.r))
  }

  /** Python's `a >= b` on floats. */
  predicate AtLeast(a: Float, b: Float) {
    LessOrEqual(Value(b), Value(a))
  }

  /** `a - b` on denoted values, before rounding. */
  function Subtract(a: Ext, b: Ext): Ext {
    match (a, b)
    case (NaN, _) => NaN
    case (_, NaN) => NaN
    case (PosInf, PosInf) => NaN
    case (NegInf, NegInf) => NaN
    case (PosInf, _) => PosInf
    case (NegInf, _) => NegInf
    case (_, PosInf) => NegInf
    case (_, NegInf) => PosInf
    case (Fin(x), Fin(y)) => Fin(x - y)
  }

  /** Python's `max(0.0, x)`: the first argument stays unless `x > 0.0`, so NaN gives 0.0. */
  function MaxWithZero(x: Ext): (r: Ext)
    ensures r == PosInf || (r.Fin? && r.r >= 0.0)
    ensures LessOrEqual(x, Fin(0.0)) || x.NaN? ==> r == Fin(0.0)
    ensures x.PosInf? || (x.Fin? && x.r > 0.0) ==> r == x
  {
    if x.PosInf? || (x.Fin? && x.r > 0.0) then x else Fin(0.0)
  }

  /** The eight bytes `struct.pack("d", f)` produces, least significant first. */
  function Pack(f: Float): (b: seq<bv8>)
    ensures |b| == 8
  {
    var x := f.bits;
    [ (x & 0xFF) as bv8, ((x >> 8) & 0xFF) as bv8, ((x >> 16) & 0xFF) as bv8, ((x >> 24) & 0xFF) as bv8,
      ((x >> 32) & 0xFF) as bv8, ((x >> 40) & 0xFF) as bv8, ((x >> 48) & 0xFF) as bv8, ((x >> 56) & 0xFF) as bv8 ]
  }

  /** `struct.unpack("d", b)[0]` for eight bytes. */
  function Unpack(b: seq<bv8>): Float
    requires |b| == 8
  {
    Float((b[0] as bv64) | ((b[1] as bv64) << 8) | ((b[2] as bv64) << 16) | ((b[3] as bv64) << 24)
          | ((b[4] as bv64) << 32) | ((b[5] as bv64) << 40) | ((b[6] as bv64) << 48) | ((b[7] as bv64) << 56))
  }

  /** Every float survives the trip through eight bytes. */
  lemma UnpackPack(f: Float)
    ensures Unpack(Pack(f)) == f
  {
  }

  /** Every eight bytes are the packing of the float they unpack to. */
  lemma PackUnpack(b: seq<bv8>)
    requires |b| == 8
    ensures Pack(Unpack(b)) == b
  {
  }

  /** The weight check `weight >= 0 and np.isfinite(weight)`. */
  predicate NonNegativeFinite(w: Float) {
    AtLeast(w, Zero) && IsFinite(w)
  }

  /**
   * The weight check accepts exactly the finite patterns whose sign bit is clear, and -0.0:
   * it rejects NaN, both infinities and every negative number.
   */
  lemma {:induction false} NonNegativeFiniteBits(w: Float)
    ensures NonNegativeFinite(w) <==> IsFinite(w) && (SignBit(w) == 0 || w == NegativeZero)
  {
    ZeroValue();
    if IsFinite(w) {
      assert Value(w) == Fin(if SignBit(w) == 0 then Magnitude(w) else -Magnitude(w));
      MagnitudeZero(w);
      SignFields(w);
    }
  }

  /** A magnitude is never negative, and is zero exactly when the exponent and fraction fields are. */
  lemma MagnitudeZero(f: Float)
    ensures Magnitude(f) >= 0.0
    ensures Magnitude(f) == 0.0 <==> ExponentField(f) == 0 && FractionField(f) == 0
  {
    var e := ExponentField(f);
    var significand := if e == 0 then ToNat(FractionField(f)) else ToNat(FractionField(f)) + 0x10_0000_0000_0000;
    ScaleSign(significand, (if e == 0 then 1 else ToNat(e)) - 1075);
    ToNatZero(FractionField(f));
  }

  lemma ZeroValue()
    ensures Value(Zero) == Fin(0.0)
  {
    assert ExponentField(Zero) == 0 && FractionField(Zero) == 0 && SignBit(Zero) == 0;
    MagnitudeZero(Zero);
  }

  /** The sign bit is 0 or 1, and -0.0 is the only pattern with sign 1 and both other fields zero. */
  lemma SignFields(w: Float)
    ensures SignBit(w) == 0 || SignBit(w) == 1
    ensures SignBit(w) == 1 && ExponentField(w) == 0 && FractionField(w) == 0 <==> w == NegativeZero
  {
  }
}
