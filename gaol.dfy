/**
 * The box-refinement helpers of the GAOL binding (src/gr/src/gaol.rs): choosing the widest
 * dimension of a box, the scale-aware convergence test, the binade step and the bisection
 * of a box.
 *
 * An interval is an abstract value of type `I`; what the helpers ask of it (its bounds, width,
 * midpoint, GAOL's own halving, construction from two bounds, the empty interval) is given by
 * an `Engine<I>`. Floating-point values are bit patterns (module Float64).
 */
module Gaol {
  import opened Wrappers
  import opened Float64

  /** The interval arithmetic engine as used by the box helpers. */
  datatype Engine<!I> = Engine(
    lower: I -> Bits,          // `GI::lower`
    upper: I -> Bits,          // `GI::upper`
    width: I -> Bits,          // `GI::width`
    midpoint: I -> I,          // `GI::midpoint`
    split: I -> (I, I),        // `GI::split`, GAOL's halving primitive
    make: (Bits, Bits) -> I,   // `GI::new_d(inf, sup)`
    empty: I,                  // `GI::new_e()`
    fl: Ops)

  /** A box: one interval per variable, in variable order (`Vec<GI>`). */
  type Box<I> = seq<I>

  function Widths<I>(e: Engine<I>, x: Box<I>): (ws: seq<Bits>)
    ensures |ws| == |x|
    ensures forall i :: 0 <= i < |x| ==> ws[i] == e.width(x[i])
  {
    seq(|x|, i requires 0 <= i < |x| => e.width(x[i]))
  }

  // ---------------------------------------------------------------------------------------
  // The widest-dimension scan shared by widest_index, width_box and split_box
  // ---------------------------------------------------------------------------------------

  /**
   * State of the scan: the running maximum `w` (initially NEG_INFINITY), the index it was
   * found at, and whether any width ever replaced the initial NEG_INFINITY.
   */
  datatype Best = Best(w: Bits, index: nat, found: bool)

  /**
   * The scan over `ws`, left to right: an element replaces the running maximum only when it
   * is strictly greater (`wid > w`), so ties keep the earlier index.
   */
  function Scan(lt: (Bits, Bits) -> bool, ws: seq<Bits>): (b: Best)
    ensures b.found ==> b.index < |ws| && b.w == ws[b.index]
    ensures !b.found ==> b.index == 0 && b.w == NEG_INFINITY
    ensures b.found ==> forall j :: b.index < j < |ws| ==> !lt(b.w, ws[j])
    ensures !b.found ==> forall j :: 0 <= j < |ws| ==> !lt(NEG_INFINITY, ws[j])
    decreases |ws|
  {
    if ws == [] then Best(NEG_INFINITY, 0, false)
    else
      var b := Scan(lt, ws[..|ws| - 1]);
      if lt(b.w, ws[|ws| - 1]) then Best(ws[|ws| - 1], |ws| - 1, true) else b
  }

  /** `lt` is a strict weak order on `s` (IEEE `<` is one on any set of non-NaN values). */
  ghost predicate StrictWeakOrderOn(lt: (Bits, Bits) -> bool, s: set<Bits>)
  {
    && (forall a :: a in s ==> !lt(a, a))
    && (forall a, b, c :: a in s && b in s && c in s && lt(a, b) && lt(b, c) ==> lt(a, c))
    && (forall a, b, c :: a in s && b in s && c in s && lt(a, b) ==> lt(a, c) || lt(c, b))
  }

  /**
   * When `<` orders the widths (a strict weak order on a set `s` holding every width and
   * NEG_INFINITY), the scan picks the FIRST index of maximal width: no width is strictly
   * greater than the chosen one, and every earlier width is strictly smaller.
   */
  lemma {:induction false} ScanIsFirstWidest(lt: (Bits, Bits) -> bool, ws: seq<Bits>, s: set<Bits>)
    requires StrictWeakOrderOn(lt, s)
    requires NEG_INFINITY in s && forall j :: 0 <= j < |ws| ==> ws[j] in s
    ensures forall j :: 0 <= j < |ws| ==> !lt(Scan(lt, ws).w, ws[j])
    ensures Scan(lt, ws).found ==>
              forall j :: 0 <= j < Scan(lt, ws).index ==> lt(ws[j], Scan(lt, ws).w)
    decreases |ws|
  {
    if ws != [] {
      var n := |ws| - 1;
      var p := ws[..n];
      ScanIsFirstWidest(lt, p, s);
      var b := Scan(lt, p);
      var x := ws[n];
      assert b.w in s;
      if lt(b.w, x) {
        forall j | 0 <= j < n ensures lt(ws[j], x) && !lt(x, ws[j]) {
          assert p[j] == ws[j] && !lt(b.w, p[j]);
        }
      } else {
        forall j | 0 <= j < n ensures !lt(b.w, ws[j]) {
          assert p[j] == ws[j];
        }
      }
    }
  }

  /** `widest_index`: the index of the first widest interval; 0 for an empty box. */
  method WidestIndex<I>(e: Engine<I>, x: Box<I>) returns (k: nat)
    ensures k == Scan(e.fl.lt, Widths(e, x)).index
    ensures |x| == 0 ==> k == 0
    ensures |x| > 0 ==> k < |x|
  {
    ghost var ws := Widths(e, x);
    var w := NEG_INFINITY;
    k := 0;
    ghost var found := false;
    for i := 0 to |x|
      invariant Best(w, k, found) == Scan(e.fl.lt, ws[..i])
    {
      var wid := e.width(x[i]);
      assert ws[..i + 1][..i] == ws[..i];
      if e.fl.lt(w, wid) {
        w := wid;
        k := i;
        found := true;
      }
    }
    assert ws[..|x|] == ws;
  }

  /**
   * The interval `width_box` hands to `eps_tol`: the first widest interval, or the empty
   * interval `GI::new_e()` when no width exceeds NEG_INFINITY (in particular for an empty box).
   */
  function WidestOf<I>(e: Engine<I>, x: Box<I>): (r: I)
    ensures Scan(e.fl.lt, Widths(e, x)).found ==> r == x[Scan(e.fl.lt, Widths(e, x)).index]
    ensures !Scan(e.fl.lt, Widths(e, x)).found ==> r == e.empty
  {
    var b := Scan(e.fl.lt, Widths(e, x));
    if b.found then x[b.index] else e.empty
  }

  // ---------------------------------------------------------------------------------------
  // Convergence test
  // ---------------------------------------------------------------------------------------

  /** The 64-bit two's-complement pattern of an `i64` value: a negative `n` is `!(-n - 1)`. */
  function TwosComplement(n: int): (v: Bits)
    requires -0x8000_0000_0000_0000 <= n < 0x8000_0000_0000_0000
  {
    if n >= 0 then n as Bits else !((-n - 1) as Bits)
  }

  /**
   * The threshold pattern of `eps_tol`: the `i64` value `((exp + 1023) << 52) &
   * 0x7FF0000000000000` reinterpreted as an `f64`. The mask keeps the low 11 bits of
   * `exp + 1023` (two's complement) as the exponent field and clears sign and mantissa.
   */
  function Threshold(exp: I16): (d: Bits)
    ensures SignBit(d) == 0
    ensures MantissaField(d) == 0
    ensures ExponentField(d) == TwosComplement(exp as int + 1023) & 0x7FF
  {
    var v := TwosComplement(exp as int + 1023);
    ShiftMaskField(v);
    (v << 52) & EXPONENT_MASK
  }

  lemma ShiftMaskField(v: Bits)
    ensures SignBit((v << 52) & EXPONENT_MASK) == 0
    ensures MantissaField((v << 52) & EXPONENT_MASK) == 0
    ensures ExponentField((v << 52) & EXPONENT_MASK) == v & 0x7FF
  {
  }

  /** A non-negative `i64` is its own pattern. */
  lemma NonNegativePattern(n: int)
    requires 0 <= n < 0x8000_0000_0000_0000
    ensures TwosComplement(n) == n as Bits
  {
  }

  lemma SmallConversion(n: int)
    requires 0 <= n < 2048
    ensures (n as Bits) < 2048
  {
  }

  lemma SmallPatternShift(v: Bits)
    requires v < 2048
    ensures (v << 52) & EXPONENT_MASK == v << 52
  {
  }

  lemma ThresholdPattern(exp: I16)
    ensures Threshold(exp) == (TwosComplement(exp as int + 1023) << 52) & EXPONENT_MASK
  {
  }

  /** Within the normal range the threshold is the encoding of exactly 2^exp. */
  lemma ThresholdIsPowerOfTwo(exp: I16)
    requires -1022 <= exp <= 1023
    ensures Threshold(exp) == ((exp as int + 1023) as Bits) << 52
  {
    var n := exp as int + 1023;
    var v := n as Bits;
    NonNegativePattern(n);
    SmallConversion(n);
    SmallPatternShift(v);
    ThresholdPattern(exp);
  }

  lemma WrappedPatternShift(v: Bits)
    requires v == !(51 as Bits)
    ensures (v << 52) & EXPONENT_MASK == 1996 << 52
    ensures ExponentField(1996 << 52) == 1996
  {
  }

  /**
   * The decoded exponent of 0.0 is -1075, below the normal range: `exp + 1023 == -52` wraps
   * to the field value 1996, so the threshold is 2^973 rather than a tiny power of two.
   */
  lemma ThresholdWrapsBelowNormalRange()
    ensures ExponentField(Threshold(-1075)) == 1996
    ensures Threshold(-1075) == 1996 << 52
  {
    var v := TwosComplement(-52);
    assert v == !(51 as Bits);
    WrappedPatternShift(v);
  }

  function MaxExponent(a: I16, b: I16): (m: I16)
    ensures (m == a || m == b) && a <= m && b <= m
  {
    if a < b then b else a
  }

  /**
   * `eps_tol`: the widest interval is tight when its width is at most the absolute tolerance,
   * or at most the power of two built from the larger decoded exponent of its two bounds.
   */
  function EpsTol<I>(e: Engine<I>, widest: I, tol: Bits): (r: bool)
    ensures r <==> e.fl.le(e.width(widest), tol)
                   || e.fl.le(e.width(widest),
                              Threshold(MaxExponent(e.fl.decodeExponent(e.lower(widest)),
                                                    e.fl.decodeExponent(e.upper(widest)))))
  {
    var exp := MaxExponent(e.fl.decodeExponent(e.lower(widest)),
                           e.fl.decodeExponent(e.upper(widest)));
    var d := Threshold(exp);
    var ww := e.width(widest);
    e.fl.le(ww, tol) || e.fl.le(ww, d)
  }

  /** `width_box`: the convergence test applied to the first widest interval of the box. */
  method WidthBox<I>(e: Engine<I>, x: Box<I>, tol: Bits) returns (r: bool)
    ensures r == EpsTol(e, WidestOf(e, x), tol)
  {
    ghost var ws := Widths(e, x);
    var w := NEG_INFINITY;
    var widest := e.empty;
    ghost var k := 0;
    ghost var found := false;
    for i := 0 to |x|
      invariant Best(w, k, found) == Scan(e.fl.lt, ws[..i])
      invariant widest == if found then x[k] else e.empty
    {
      var wid := e.width(x[i]);
      assert ws[..i + 1][..i] == ws[..i];
      if e.fl.lt(w, wid) {
        w := wid;
        widest := x[i];
        k := i;
        found := true;
      }
    }
    assert ws[..|x|] == ws;
    r := EpsTol(e, widest, tol);
  }

  /** `midpoint_box`: the box of midpoints, dimension by dimension. */
  method MidpointBox<I>(e: Engine<I>, x: Box<I>) returns (r: Box<I>)
    ensures |r| == |x|
    ensures forall i :: 0 <= i < |x| ==> r[i] == e.midpoint(x[i])
  {
    r := x;
    for i := 0 to |x|
      invariant |r| == |x|
      invariant forall j :: 0 <= j < i ==> r[j] == e.midpoint(x[j])
    {
      r := r[i := e.midpoint(x[i])];
    }
  }

  // ---------------------------------------------------------------------------------------
  // Binade step and bisection
  // ---------------------------------------------------------------------------------------

  /**
   * `get_next_binade`: a pattern with zero mantissa whose exponent field is one step from the
   * input's. A negative input steps its exponent down (toward zero); a non-negative one steps
   * it up (away from zero); so the value moves upward either way.
   */
  function NextBinade(current: Bits): (r: Bits)
    ensures MantissaField(r) == 0
  {
    var osign := current >> 63;
    var oexp := (current >> 52) & 0x7FF;
    var sign: Bits := if oexp == 0 && osign == 1 then 0 else osign;
    // the u64 subtraction `oexp - 1` is only reached with a non-zero exponent field
    var exp := if sign == 1 then (assert oexp >= 1; oexp - 1) else oexp + 1;
    (sign << 63) | (exp << 52)
  }

  /** -0.0 and negative subnormals (zero exponent field) lose their sign: the result is 2^-1022. */
  lemma NextBinadeNegativeZeroExponent(current: Bits)
    requires SignBit(current) == 1 && ExponentField(current) == 0
    ensures SignBit(NextBinade(current)) == 0 && ExponentField(NextBinade(current)) == 1
  {
  }

  /** Any other negative input keeps its sign and steps its exponent down by one. */
  lemma NextBinadeNegative(current: Bits)
    requires SignBit(current) == 1 && ExponentField(current) != 0
    ensures SignBit(NextBinade(current)) == 1
    ensures ExponentField(NextBinade(current)) == ExponentField(current) - 1
  {
  }

  /** A non-negative input below the all-ones exponent keeps sign 0 and steps up by one. */
  lemma NextBinadeNonNegative(current: Bits)
    requires SignBit(current) == 0 && ExponentField(current) < 0x7FF
    ensures SignBit(NextBinade(current)) == 0
    ensures ExponentField(NextBinade(current)) == ExponentField(current) + 1
  {
  }

  /** For +inf and positive NaNs the step `0x800 << 52` lands in the sign bit: the result is -0.0. */
  lemma NextBinadeAllOnesExponent(current: Bits)
    requires SignBit(current) == 0 && ExponentField(current) == 0x7FF
    ensures NextBinade(current) == SIGN_MASK
  {
  }

  /** For a finite non-negative input the step is a strictly larger pattern, hence value. */
  lemma NextBinadeIncreasesNonNegative(current: Bits)
    requires SignBit(current) == 0 && ExponentField(current) < 0x7FF
    ensures current < NextBinade(current)
    ensures NextBinade(current) == (ExponentField(current) + 1) << 52
  {
    NextBinadeNonNegative(current);
    FieldsDetermine(NextBinade(current), (ExponentField(current) + 1) << 52);
  }

  /** For a negative input with a non-zero exponent field the magnitude strictly shrinks. */
  lemma NextBinadeShrinksNegative(current: Bits)
    requires SignBit(current) == 1 && ExponentField(current) != 0
    ensures NextBinade(current) & !SIGN_MASK < current & !SIGN_MASK
    ensures NextBinade(current) == SIGN_MASK | ((ExponentField(current) - 1) << 52)
  {
    NextBinadeNegative(current);
    FieldsDetermine(NextBinade(current), SIGN_MASK | ((ExponentField(current) - 1) << 52));
  }

  /** The result of one bisection: the child boxes, and whether they differ from the parent. */
  datatype Split<I> = Split(boxes: seq<Box<I>>, progressed: bool)

  /** `split_box` indexes `_x[w_ind]`, which panics on an empty box. */
  datatype BoxError = IndexOutOfBounds

  /**
   * The two candidate intervals for dimension `k`: split at the binade boundary `nb` of the
   * midpoint's lower bound when `nb < upper`, otherwise GAOL's halving primitive.
   */
  function Halves<I>(e: Engine<I>, iv: I): (h: (I, I))
    ensures var nb := NextBinade(e.lower(e.midpoint(iv)));
            h == if e.fl.lt(nb, e.upper(iv)) then (e.make(e.lower(iv), nb), e.make(nb, e.upper(iv)))
                 else e.split(iv)
  {
    var nb := NextBinade(e.lower(e.midpoint(iv)));
    if e.fl.lt(nb, e.upper(iv)) then (e.make(e.lower(iv), nb), e.make(nb, e.upper(iv)))
    else e.split(iv)
  }

  /** The two candidates have equal bounds: no progress is possible. */
  predicate SameBounds<I>(e: Engine<I>, a: I, b: I)
  {
    e.fl.eq(e.lower(a), e.lower(b)) && e.fl.eq(e.upper(a), e.upper(b))
  }

  /**
   * `split_box`: bisect the first widest dimension `k`. Both children copy the parent outside
   * `k`; at `k` they hold the two halves. When the halves have equal bounds only the first
   * child is returned, with `progressed == false`.
   */
  method SplitBox<I>(e: Engine<I>, x: Box<I>) returns (r: Result<Split<I>, BoxError>)
    ensures r.Err? <==> |x| == 0
    ensures r.Ok? ==>
              var k := Scan(e.fl.lt, Widths(e, x)).index;
              var h := Halves(e, x[k]);
              && k < |x|
              && (r.value.progressed <==> |r.value.boxes| == 2)
              && 1 <= |r.value.boxes| <= 2
              && (r.value.progressed <==> !SameBounds(e, h.0, h.1))
              && r.value.boxes[0] == x[k := h.0]
              && (r.value.progressed ==> r.value.boxes[1] == x[k := h.1])
              && (forall c :: c in r.value.boxes ==>
                    |c| == |x| && forall j :: 0 <= j < |x| && j != k ==> c[j] == x[j])
  {
    var wInd := WidestIndex(e, x);
    if |x| == 0 {
      return Err(IndexOutOfBounds);
    }
    var a := x;
    var b := x;
    var nb := NextBinade(e.lower(e.midpoint(x[wInd])));
    if e.fl.lt(nb, e.upper(x[wInd])) {
      a := a[wInd := e.make(e.lower(x[wInd]), nb)];
      b := b[wInd := e.make(nb, e.upper(x[wInd]))];
    } else {
      var (lo, hi) := e.split(x[wInd]);
      a := a[wInd := lo];
      b := b[wInd := hi];
    }
    if e.fl.eq(e.lower(a[wInd]), e.lower(b[wInd])) && e.fl.eq(e.upper(a[wInd]), e.upper(b[wInd])) {
      r := Ok(Split([a], false));
    } else {
      r := Ok(Split([a, b], true));
    }
  }
}
