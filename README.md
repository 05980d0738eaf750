# one-more-cmath-lib: integer kernel and vector lifecycle in Dafny

This project models the exactly-specifiable part of a small C vector-math
library:

- `math_core.dfy` (module `MathCore`): the order/selection macros `MAX`,
  `MIN`, `ABS`, `CLAMP` and the assigning macro `CLAMP_INPLACE`, and
  `pow_i`, integer exponentiation by squaring. The macros are functions of
  already-evaluated arguments over mathematical integers. `CLAMP_INPLACE`
  assigns to its `val` argument. It is a method whose out-parameter is the
  new value of `val`. `pow_i` is a `while` loop over `result`, `current` and
  `e`, with `e & 1` written `e % 2 == 1` and `e >>= 1` written `e / 2`; both
  agree with the C operators because `e` is never negative. C `int` is the
  newtype `int32`. Every multiplication on it must be proved to stay in
  range, since signed overflow is undefined in C.
- `vec.dfy` (module `Vec`): the vector record `{size, data}`, modelled as
  the class `Vector<T>`. `size` is an `unsigned int` (`uint32`) and `data`
  is a nullable array. The `{0, NULL}` sentinel is the constructor
  `Undefined`. Allocation, zero-filling, filling from an array, deep copy
  and release are written once, generic in the element type. The `float`
  functions (`allocate`, `free_vector`, `vec_create`,
  `vec_create_from_array`, `vec_copy`) and their `double` twins
  (`allocate_d`, `free_dvector`, `dvec_create`, ...) are instances of that
  code. Elements are only copied or zeroed, never computed with, so they
  are kept as IEEE-754 bit patterns (`Float32(bits: bv32)`,
  `Float64(bits: bv64)`). `0.0f` and `0.0` are the all-zero patterns.

None of the vector methods has a `modifies` clause except the three release
methods.
Dafny's frame rules therefore guarantee that the fill and copy loops write
only into the buffer they just allocated. No other heap location changes,
and the array a vector is filled from is only read.

Two behaviours of the source are worth knowing:

- `CLAMP(a, b, c)` is `MAX(b, MIN(a, c))`, so with `b > c` it always
  returns `b`. `CLAMP_INPLACE` with inverted bounds returns the lower bound
  below it and the upper bound otherwise. Both agree whenever the bounds
  are ordered. With inverted bounds `CLAMP_INPLACE` is not idempotent:
  `(0, 2, 1)` gives 2, and a second application gives 1.
- Releasing a vector nulls `data` but keeps `size`. A released non-empty
  vector is therefore not the `{0, NULL}` sentinel.

## Model

| member | source | states |
|---|---|---|
| `MathCore.Max` | headers/math_core.h:5-7 | the result is at least each argument and is one of them |
| `MathCore.Min` | headers/math_core.h:9-11 | the result is at most each argument and is one of them |
| `MathCore.Abs` | headers/math_core.h:13-15 | the result is non-negative, is `a` or `-a`, and is 0 exactly when `a` is 0 |
| `MathCore.Clamp` | headers/math_core.h:17-19 | with ordered bounds the result lies in `[b, c]`; a value in range is returned unchanged; below `b` gives `b`, above `c` gives `c`; with `b > c` the result is always `b` |
| `MathCore.ClampInPlace` | headers/math_core.h:33-36 | with ordered bounds the new value lies in `[minval, maxval]`, equals `CLAMP` and is unchanged if already in range; with inverted bounds it is `minval` below `minval`, otherwise `maxval`; for ordered bounds, applying it twice equals applying it once, which follows from the first two clauses |
| `MathCore.MinIsNegatedMax` | headers/math_core.h:5-11 | `MIN(a, b) == -MAX(-a, -b)` and `MIN(a, b) + MAX(a, b) == a + b` |
| `MathCore.AbsIsMaxOfNegation` | headers/math_core.h:13-15 | `ABS(a) == MAX(a, -a)` |
| `MathCore.ClampIdempotent` | headers/math_core.h:17-19 | clamping a clamped value again changes nothing, for any order of the bounds |
| `MathCore.PowHalve` | headers/math_core.h:56-62 | one squaring step keeps the power: `c^e == (c if e odd, else 1) * (c*c)^(e/2)`, which is the loop invariant `result * current^e == base^exp` |
| `MathCore.LoopStepFits` | headers/math_core.h:56-62 | when `result * c^e` fits in `int`, provided `c` is 0 or that product is nonzero (the loop of `PowI` keeps this as an invariant), the odd-step product `result * c` fits, and so does `c * c` whenever another iteration follows |
| `MathCore.PowIAsWritten` | headers/math_core.h:47-64 | the loop as written returns 0 for a negative exponent and `base^exp` otherwise; its ghost record lists every value `current *= current` produces, one per iteration |
| `MathCore.PowIAsWrittenOverflows` | headers/math_core.h:60 | `2^16` fits in `int`, yet the squarings of `pow_i(2, 16)` end with `2^32`, outside `int` |
| `MathCore.PowI` | headers/math_core.h:47-64 | for 32-bit operands: 0 for a negative exponent, 1 for exponent 0, `base` for exponent 1 (the three early returns, each agreeing with `base^exp` where the exponent is non-negative), `base^exp` otherwise; no multiplication overflows whenever the result fits; terminates because `e` halves |
| `MathCore.PowIOfTwoToTheFifth` | src/main.c:66-67 | `pow_i(2, 5) == 32` |
| `Vec.Vector.constructor` | headers/vec.h:15-18 | the record literal `{size, data}` holds exactly the given count and buffer |
| `Vec.Vector.Undefined` | headers/vec.h:30-31 | the sentinel has size 0 and a null buffer |
| `Vec.AllocateBuffer` | src/vec.c:6-9 | a fresh record with the requested size over a fresh buffer of exactly that length; contents unspecified |
| `Vec.ZeroFilled` | src/vec.c:18-24 | a fresh vector of the requested size whose every element is the given zero |
| `Vec.FromArray` | src/vec.c:26-32 | a fresh vector whose elements are the first `size` elements of the source array; the source array is unchanged |
| `Vec.DeepCopy` | src/vec.c:34-40 | a fresh record over a fresh buffer with the same size and the same elements; the original is unchanged |
| `Vec.Release` | src/vec.c:11-16 | `data` becomes null and `size` is kept; the result is the sentinel exactly when the size was 0; with a null buffer nothing changes, so a second release is harmless |
| `Vec.WriteIntoCopy` | src/vec.c:34-40 | writing an element of a deep copy changes the copy only; the original's elements stay as they were |
| `Vec.Allocate` | src/vec.c:6-9 | `allocate`: fresh record and fresh buffer of length `size` |
| `Vec.FreeVector` | src/vec.c:11-16 | `free_vector`: `data` becomes null, `size` is kept, no-op on a null buffer |
| `Vec.VecCreate` | src/vec.c:18-24 | `vec_create`: size `size`, every element `0.0f` |
| `Vec.VecCreateFromArray` | src/vec.c:26-32 | `vec_create_from_array`: element `i` equals `data[i]` for every `i < size`; `data` is unchanged |
| `Vec.VecCopy` | src/vec.c:34-40 | `vec_copy`: same size, same elements, fresh buffer |
| `Vec.AllocateD` | src/vec.c:42-45 | `allocate_d`: fresh record and fresh buffer of length `size` |
| `Vec.FreeDVector` | src/vec.c:47-52 | `free_dvector`: `data` becomes null, `size` is kept, no-op on a null buffer |
| `Vec.DVecCreate` | src/vec.c:54-60 | `dvec_create`: size `size`, every element `0.0` |
| `Vec.DVecCreateFromArray` | src/vec.c:62-68 | `dvec_create_from_array`: element `i` equals `data[i]` for every `i < size`; `data` is unchanged |
| `Vec.DVecCopy` | src/vec.c:70-76 | `dvec_copy`: same size, same elements, fresh buffer |

## Findings

| source | as written | input that shows it | evidently intended | confidence | as-written member | corrected member |
|---|---|---|---|---|---|---|
| headers/math_core.h:56-62 | `current *= current` runs on every iteration, including the last, whose square is never used | `pow_i(2, 16)`: the result 65536 fits in `int`, but the last iteration computes 65536 * 65536 = 2^32, a signed overflow (undefined behaviour) | square `current` only when another iteration follows (`e > 1`), so every multiplication fits whenever the result does | not executed; high | `MathCore.PowIAsWritten`, `MathCore.PowIAsWrittenOverflows` | `MathCore.PowI` |

## Left out

- The fast approximations `fast_inv_sqrt`/`fast_inv_sqrtd`, `fast_sqrt`/`fast_sqrtd`, `fast_log2f`/`fast_log2d`, `fast_exp2f`/`fast_exp2d`, `fast_powf`/`fast_powd`, `sqrt_f`/`sqrt_d`, `cbrt_f`/`cbrt_d` and `hypot_f`/`hypot_d` (headers/math_core.h:115-318): they reinterpret IEEE-754 bits through pointer casts and unions and rely on floating-point rounding, which Dafny cannot state faithfully.
- `pow_fi` and `pow_di` (headers/math_core.h:71-104): repeated floating-point multiplication with an `INFINITY` result; an idealisation over `real` would not match rounding or infinities.
- `LERP`, `RAD2DEG`, `DEG2RAD` (headers/math_core.h:21-31): floating-point arithmetic with `M_PI`.
- The order macros also apply to floating-point operands, where NaN makes every comparison false; the model takes integer operands only.
- MathCore.Abs: over mathematical integers, so it does not capture that `ABS(INT_MIN)` overflows `int`.
- Macro double evaluation: arguments with side effects would be evaluated twice by `MAX`, `MIN`, `CLAMP`; the model takes evaluated values.
- `malloc` failure: allocation always succeeds, as the source never checks for a null result. C also lets `malloc(0)` return a null pointer, so `allocate(0)` may yield the `{0, NULL}` sentinel; `AllocateBuffer` always returns a non-null (empty) buffer. `free` is modelled only as nulling `data`; the memory itself is not tracked, so use after release through another copy of the record is not captured.
- Vec.Vector: the C record is passed and returned by value. Here it is a heap object, so two C copies of one record that share a buffer (and go stale together when one is released) are not modelled.
- The size computation `size * sizeof(float)` passed to `malloc` could wrap on a narrow `size_t`; the model allocates `size` elements exactly.
- `make_default_vector` and `make_default_dvector` (headers/vec.h:38, 45) are declared but never defined. The duplicate definition of the sentinels in headers/vec.h:30-31 and src/vec.c:3-4 is a link-time matter.
- src/main.c apart from its `pow_i(2, 5)` call: a printing demo that calls vector functions (`vector_add`, `vector_cross`, `vector_magnitude`, `vector_pow`, ...) that are not part of this model.
- headers/cmath.h: includes, type aliases and the `NUMARGS` argument-count macro used by the `vector(...)` convenience macros, which is a preprocessor trick.
