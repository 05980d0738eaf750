/**
 * The exact-integer part of the math kernel: the order/selection macros
 * MAX, MIN, ABS, CLAMP and CLAMP_INPLACE, and integer exponentiation by
 * squaring (pow_i).
 *
 * The macros are modelled as functions of already-evaluated arguments over
 * mathematical integers. pow_i is modelled twice: PowIAsWritten follows the
 * loop exactly as written (it squares `current` on every iteration, also
 * the last), and PowI is the corrected loop over 32-bit `int`, in which
 * every multiplication is proved to stay inside the range of the type.
 */
module MathCore {

  /** The range of C `int`, a 32-bit two's-complement integer. */
  const IntMin: int := -0x8000_0000
  const IntMax: int := 0x7fff_ffff

  /** C `int`. Arithmetic on this type must be proved not to leave the range
      (signed overflow is undefined). */
  newtype int32 = x: int | IntMin <= x <= IntMax

  predicate InInt32(x: int) {
    IntMin <= x <= IntMax
  }

  // ---------------------------------------------------------------------
  // Order and selection macros
  // ---------------------------------------------------------------------

  /** MAX(a, b): the larger argument. */
  function Max(a: int, b: int): (r: int)
    ensures r >= a && r >= b
    ensures r == a || r == b
  {
    if a > b then a else b
  }

  /** MIN(a, b): the smaller argument. */
  function Min(a: int, b: int): (r: int)
    ensures r <= a && r <= b
    ensures r == a || r == b
  {
    if a < b then a else b
  }

  /** ABS(a): the magnitude of a. */
  function Abs(a: int): (r: int)
    ensures r >= 0
    ensures r == a || r == -a
    ensures r == 0 <==> a == 0
  {
    if a < 0 then -a else a
  }

  /** CLAMP(a, b, c) is MAX(b, MIN(a, c)): a forced into [b, c] when that
      interval is non-empty; when b > c the lower bound b always wins. */
  function Clamp(a: int, b: int, c: int): (r: int)
    ensures b <= c ==> b <= r <= c
    ensures b <= a <= c ==> r == a
    ensures a < b ==> r == b
    ensures b <= c < a ==> r == c
    ensures c < b ==> r == b
  {
    Max(b, Min(a, c))
  }

  /** CLAMP_INPLACE(val, minval, maxval): assigns to `val`; `clamped` is its
      new value. Below the lower bound it becomes the lower bound, otherwise
      above the upper bound it becomes the upper bound. */
  method ClampInPlace(val: int, minval: int, maxval: int) returns (clamped: int)
    ensures minval <= maxval ==> minval <= clamped <= maxval
    ensures minval <= val <= maxval ==> clamped == val
    ensures minval <= maxval ==> clamped == Clamp(val, minval, maxval)
    ensures maxval < minval ==> clamped == if val < minval then minval else maxval
  {
    clamped := val;
    if clamped < minval {
      clamped := minval;
    } else if clamped > maxval {
      clamped := maxval;
    }
  }

  /** MIN is MAX mirrored through negation. */
  lemma MinIsNegatedMax(a: int, b: int)
    ensures Min(a, b) == -Max(-a, -b)
    ensures Min(a, b) + Max(a, b) == a + b
  {
  }

  /** ABS(a) is MAX(a, -a). */
  lemma AbsIsMaxOfNegation(a: int)
    ensures Abs(a) == Max(a, -a)
  {
  }

  /** Clamping an already clamped value changes nothing, whatever the order
      of the bounds. */
  lemma ClampIdempotent(a: int, b: int, c: int)
    ensures Clamp(Clamp(a, b, c), b, c) == Clamp(a, b, c)
  {
  }

  // ---------------------------------------------------------------------
  // Integer powers
  // ---------------------------------------------------------------------

  /** base^n, the mathematical power that pow_i computes. */
  function Pow(base: int, n: nat): int
    decreases n
  {
    if n == 0 then 1 else base * Pow(base, n - 1)
  }

  /** An even power is a power of the square. */
  lemma {:induction false} PowOfSquare(c: int, k: nat)
    ensures Pow(c, 2 * k) == Pow(c * c, k)
  {
    if k > 0 {
      PowOfSquare(c, k - 1);
      calc {
        Pow(c, 2 * k);
        c * Pow(c, 2 * k - 1);
        c * (c * Pow(c, 2 * (k - 1)));
        (c * c) * Pow(c * c, k - 1);
        Pow(c * c, k);
      }
    }
  }

  /** One step of exponentiation by squaring: c^e is (c if e is odd) times
      (c*c)^(e/2). */
  lemma PowHalve(c: int, e: nat)
    ensures Pow(c, e) == (if e % 2 == 1 then c else 1) * Pow(c * c, e / 2)
  {
    PowOfSquare(c, e / 2);
    if e % 2 == 1 {
      assert Pow(c, e) == c * Pow(c, 2 * (e / 2));
    }
  }

  lemma {:induction false} PowNonzero(b: int, n: nat)
    requires b != 0
    ensures Pow(b, n) != 0
  {
    if n > 0 {
      PowNonzero(b, n - 1);
    }
  }

  /** Powers of a base of at least one never decrease as the exponent grows. */
  lemma {:induction false} PowGrows(a: int, m: nat, n: nat)
    requires a >= 1 && m <= n
    ensures 1 <= Pow(a, m) <= Pow(a, n)
    decreases n
  {
    if m < n {
      PowGrows(a, m, n - 1);
      assert Pow(a, n) == a * Pow(a, n - 1);
      assert Pow(a, n - 1) <= a * Pow(a, n - 1);
    } else if m > 0 {
      PowGrows(a, m - 1, m - 1);
      assert Pow(a, m) == a * Pow(a, m - 1);
    }
  }

  lemma AbsOfProduct(a: int, b: int)
    ensures Abs(a * b) == Abs(a) * Abs(b)
  {
    if a < 0 && b < 0 {
      assert a * b == (-a) * (-b);
    } else if a < 0 {
      assert -(a * b) == (-a) * b;
    } else if b < 0 {
      assert -(a * b) == a * (-b);
    }
  }

  lemma MulMonotone(a: int, b: int, x: int)
    requires 0 <= a <= b && 0 <= x
    ensures a * x <= b * x
  {
  }

  lemma {:induction false} PowOfOne(k: nat)
    ensures Pow(1, k) == 1
  {
    if k > 0 {
      PowOfOne(k - 1);
    }
  }

  /** 2^31 is not the square of an integer (46340^2 < 2^31 < 46341^2). */
  lemma NoSquareIsTwoTo31(c: int)
    ensures c * c != 0x8000_0000
  {
    var a := Abs(c);
    AbsOfProduct(c, c);
    assert c * c == a * a;
    if a <= 46340 {
      MulMonotone(a, 46340, a);
      MulMonotone(a, 46340, 46340);
    } else {
      MulMonotone(46341, a, a);
      MulMonotone(46341, a, 46341);
    }
  }

  /** A factor q of a product p == q * w that fits in `int` fits too, when
      the other factor w is 1 or at least 4. */
  lemma FactorFits(q: int, w: int, p: int)
    requires p == q * w && InInt32(p) && (w == 1 || w >= 4)
    ensures InInt32(q)
  {
    if w >= 4 {
      AbsOfProduct(q, w);
      MulMonotone(4, w, Abs(q));
      assert Abs(q) * 4 <= Abs(p);
    }
  }

  /** If p == q * w with q nonzero, w >= c * c >= 1 and p fits in `int`,
      then c * c fits as well. */
  lemma SquareFits(q: int, w: int, p: int, c: int)
    requires p == q * w && q != 0 && 1 <= c * c <= w && InInt32(p)
    ensures InInt32(c * c)
  {
    AbsOfProduct(q, w);
    MulMonotone(1, Abs(q), w);
    NoSquareIsTwoTo31(c);
  }

  /** The square of a nonzero integer is 1 or at least 4. */
  lemma SquareOfNonzero(c: int)
    requires c != 0
    ensures c * c == 1 || c * c >= 4
  {
    AbsOfProduct(c, c);
    if Abs(c) >= 2 {
      MulMonotone(2, Abs(c), Abs(c));
      MulMonotone(2, Abs(c), 2);
    }
  }

  /** The product `result * c^e` regrouped the way one loop iteration
      regroups it. */
  lemma RegroupStep(result: int, c: int, e: nat)
    ensures result * Pow(c, e) == (result * (if e % 2 == 1 then c else 1)) * Pow(c * c, e / 2)
  {
    PowHalve(c, e);
  }

  /** One iteration of the corrected loop keeps `result * current^e`: with
      the product taken for an odd e and the square taken only when another
      iteration follows. */
  lemma CorrectedStep(result: int, c: int, e: nat)
    requires e >= 1
    ensures var result' := if e % 2 == 1 then result * c else result;
            var c' := if e > 1 then c * c else c;
            result' * Pow(c', e / 2) == result * Pow(c, e)
  {
    RegroupStep(result, c, e);
    if e == 1 {
      assert Pow(c * c, 0) == 1 == Pow(c, 0);
    }
  }

  /** The multiplications of one loop iteration stay inside `int` whenever
      the final power does: if result * c^e == p and p fits, then the product
      result * c taken for an odd e fits, and so does c * c when a further
      iteration follows (e > 1). */
  lemma LoopStepFits(result: int, c: int, e: nat, p: int)
    requires result * Pow(c, e) == p && InInt32(p) && e >= 1
    requires c == 0 || p != 0
    ensures e % 2 == 1 ==> InInt32(result * c)
    ensures e > 1 ==> InInt32(c * c)
  {
    if c != 0 {
      var cc, k := c * c, e / 2;
      var q := result * (if e % 2 == 1 then c else 1);
      RegroupStep(result, c, e);
      var w := Pow(cc, k);
      assert p == q * w;
      SquareOfNonzero(c);
      PowGrows(cc, 0, k);
      if k >= 1 {
        PowGrows(cc, 1, k);
        SquareFits(q, w, p, c);
      }
      if e % 2 == 1 {
        if k == 0 || cc == 1 {
          PowOfOne(k);
        }
        FactorFits(q, w, p);
      }
    }
  }

  /** Every value the statement `current *= current` produces in the source
      loop: one squaring per iteration, including the last. */
  function SquaresAsWritten(current: int, e: nat): seq<int>
    decreases e
  {
    if e == 0 then [] else [current * current] + SquaresAsWritten(current * current, e / 2)
  }

  /** pow_i exactly as written, over unbounded integers: the result and,
      as a ghost record, every value the squaring of `current` produces. */
  method PowIAsWritten(base: int, exp: int) returns (r: int, ghost squares: seq<int>)
    ensures exp < 0 ==> r == 0
    ensures exp >= 0 ==> r == Pow(base, exp)
    ensures squares == if exp <= 1 then [] else SquaresAsWritten(base, exp)
  {
    squares := [];
    if exp < 0 { return 0, squares; }
    if exp == 0 { return 1, squares; }
    if exp == 1 { return base, squares; }

    var result := 1;
    var current := base;
    var e := exp;
    while e > 0
      invariant 0 <= e
      invariant result * Pow(current, e) == Pow(base, exp)
      invariant squares + SquaresAsWritten(current, e) == SquaresAsWritten(base, exp)
      decreases e
    {
      RegroupStep(result, current, e);
      if e % 2 == 1 {
        result := result * current;
      }
      assert SquaresAsWritten(current, e) == [current * current] + SquaresAsWritten(current * current, e / 2);
      squares := squares + [current * current];
      current := current * current;
      e := e / 2;
    }
    r := result;
  }

  /** pow_i(2, 16) is 65536, well inside `int`, yet the loop as written
      ends by squaring 65536 into 2^32, a signed overflow. */
  lemma PowIAsWrittenOverflows()
    ensures InInt32(Pow(2, 16))
    ensures SquaresAsWritten(2, 16) == [4, 16, 256, 65536, 0x1_0000_0000]
    ensures !InInt32(0x1_0000_0000)
  {
    calc {
      Pow(2, 16);
      { PowOfSquare(2, 8); }
      Pow(4, 8);
      { PowOfSquare(4, 4); }
      Pow(16, 4);
      { PowOfSquare(16, 2); }
      Pow(256, 2);
      65536;
    }
  }

  /** pow_i with the last, unused squaring skipped. Returns 0 for a negative
      exponent, 1 for exponent 0, the base for exponent 1, and base^exp
      otherwise; since every operand is an `int32`, the verifier proves that
      no multiplication overflows whenever the result itself fits. */
  method PowI(base: int32, exp: int32) returns (r: int32)
    requires exp < 0 || InInt32(Pow(base as int, exp as int))
    ensures exp < 0 ==> r == 0
    ensures exp >= 0 ==> r as int == Pow(base as int, exp as int)
    ensures exp == 0 ==> r == 1
    ensures exp == 1 ==> r == base
  {
    if exp < 0 { return 0; }
    if exp == 0 { return 1; }
    if exp == 1 { return base; }

    ghost var p := Pow(base as int, exp as int);
    if base != 0 {
      PowNonzero(base as int, exp as int);
    }
    var result: int32 := 1;
    var current := base;
    var e := exp;
    while e > 0
      invariant 0 <= e
      invariant (result as int) * Pow(current as int, e as int) == p
      invariant current == 0 || p != 0
      decreases e
    {
      LoopStepFits(result as int, current as int, e as int, p);
      CorrectedStep(result as int, current as int, e as int);
      if e % 2 == 1 {
        result := result * current;
      }
      if e > 1 {
        current := current * current;
      }
      e := e / 2;
    }
    r := result;
  }

  /** The demonstration program's call: pow_i(2, 5) is 32. */
  method PowIOfTwoToTheFifth() returns (r: int32)
    ensures r == 32
  {
    r := PowI(2, 5);
  }
}
