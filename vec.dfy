/**
 * The vector buffer lifecycle: a vector record pairs an element count with
 * an exclusively owned heap buffer. Vectors are allocated (contents left
 * unspecified), zero-filled, filled from an existing array, deep-copied,
 * and released, which nulls the buffer reference but keeps the count.
 *
 * Both precisions share one generic implementation (AllocateBuffer,
 * ZeroFilled, FromArray, DeepCopy, Release); the single-precision
 * functions (allocate, vec_create, ...) and their double-precision twins
 * (allocate_d, dvec_create, ...) are instances of it. Elements are only
 * copied or set to zero, so they are kept as raw IEEE-754 bit patterns.
 */
module Vec {

  /** C `unsigned int`, the type of a vector's element count. */
  newtype uint32 = x: int | 0 <= x < 0x1_0000_0000

  /** A `float` element, as its 32-bit pattern. */
  datatype Float32 = Float32(bits: bv32)

  /** A `double` element, as its 64-bit pattern. */
  datatype Float64 = Float64(bits: bv64)

  /** 0.0f and 0.0: positive zero is the all-zero bit pattern. */
  const FloatZero: Float32 := Float32(0)
  const DoubleZero: Float64 := Float64(0)

  /** The vector record: `size` elements in the buffer `data`, or a null
      buffer. {0, NULL} is the "undefined" sentinel. */
  class Vector<T> {
    var size: uint32
    var data: array?<T>

    /** The record literal {size, data}. */
    constructor (size: uint32, data: array?<T>)
      ensures this.size == size && this.data == data
    {
      this.size := size;
      this.data := data;
    }

    /** VEC_UNDEFINED / DVEC_UNDEFINED: {0, NULL}. */
    constructor Undefined()
      ensures IsUndefined()
    {
      size := 0;
      data := null;
    }

    /** A live buffer holds exactly `size` elements. */
    ghost predicate Valid()
      reads this
    {
      data != null ==> data.Length == size as int
    }

    predicate IsUndefined()
      reads this
    {
      size == 0 && data == null
    }

    /** The elements a reader of the record sees; a null buffer holds none. */
    ghost function Elements(): seq<T>
      reads this, data
    {
      if data == null then [] else data[..]
    }
  }

  /** vector_t and dvector_t. */
  type FloatVector = Vector<Float32>
  type DoubleVector = Vector<Float64>

  // ---------------------------------------------------------------------
  // Shared implementation, generic in the element type
  // ---------------------------------------------------------------------

  /** {size, malloc(size * sizeof(element))}: a fresh record over a fresh
      buffer of `size` elements whose contents are unspecified. Allocation
      never fails. */
  method AllocateBuffer<T(0)>(size: uint32) returns (v: Vector<T>)
    ensures fresh(v) && v.data != null && fresh(v.data)
    ensures v.size == size && v.data.Length == size as int
    ensures v.Valid()
  {
    var buffer := new T[size as int];
    v := new Vector(size, buffer);
  }

  /** Allocates, then writes `zero` into every index below `size`. */
  method ZeroFilled<T(0)>(size: uint32, zero: T) returns (v: Vector<T>)
    ensures fresh(v) && v.data != null && fresh(v.data)
    ensures v.size == size && v.Valid()
    ensures v.Elements() == seq(size as int, _ => zero)
  {
    v := AllocateBuffer(size);
    var buffer := v.data;
    for i := 0 to size as int
      invariant v.data == buffer && v.size == size
      invariant forall k :: 0 <= k < i ==> buffer[k] == zero
    {
      buffer[i] := zero;
    }
  }

  /** Allocates, then copies src[0 .. size) index by index. The caller
      must pass an array with at least `size` elements; it is only read. */
  method FromArray<T(0)>(size: uint32, src: array<T>) returns (v: Vector<T>)
    requires size as int <= src.Length
    ensures fresh(v) && v.data != null && fresh(v.data)
    ensures v.size == size && v.Valid()
    ensures v.Elements() == src[..size]
    ensures src[..] == old(src[..])
  {
    v := AllocateBuffer(size);
    var buffer := v.data;
    for i := 0 to size as int
      invariant v.data == buffer && v.size == size
      invariant forall k :: 0 <= k < i ==> buffer[k] == src[k]
    {
      buffer[i] := src[i];
    }
  }

  /** A deep copy: a fresh record and a fresh buffer with the same size and
      the same elements. The source buffer is read at every index below its
      size, so a non-empty source must still own its buffer. */
  method DeepCopy<T(0)>(v: Vector<T>) returns (copy: Vector<T>)
    requires v.Valid() && (v.size == 0 || v.data != null)
    ensures fresh(copy) && copy.data != null && fresh(copy.data)
    ensures copy.size == v.size && copy.Valid()
    ensures copy.Elements() == v.Elements()
    ensures v.Elements() == old(v.Elements())
  {
    copy := AllocateBuffer(v.size);
    var buffer := copy.data;
    for i := 0 to v.size as int
      invariant copy.data == buffer && copy.size == v.size
      invariant forall k :: 0 <= k < i ==> buffer[k] == v.data[k]
    {
      buffer[i] := v.data[i];
    }
  }

  /** Releases the buffer if there is one and nulls the reference. The size
      is left as it was, so only a vector of size 0 becomes the undefined
      sentinel; a second release is a no-op. */
  method Release<T>(v: Vector<T>)
    modifies v
    ensures v.data == null && v.size == old(v.size)
    ensures v.Valid()
    ensures v.IsUndefined() <==> old(v.size) == 0
    ensures old(v.data) == null ==> unchanged(v)
  {
    if v.data != null {
      v.data := null;
    }
  }

  /** Writing into a deep copy leaves the original's elements as they were:
      the two buffers never alias. */
  method WriteIntoCopy<T(0)>(v: Vector<T>, i: nat, x: T) returns (copy: Vector<T>)
    requires v.Valid() && v.data != null && i < v.size as int
    ensures fresh(copy) && copy.data != null && copy.size == v.size
    ensures copy.Elements() == v.Elements()[i := x]
    ensures v.Elements() == old(v.Elements())
  {
    copy := DeepCopy(v);
    copy.data[i] := x;
  }

  // ---------------------------------------------------------------------
  // Single precision (vector_t)
  // ---------------------------------------------------------------------

  /** allocate(size) */
  method Allocate(size: uint32) returns (v: FloatVector)
    ensures fresh(v) && v.data != null && fresh(v.data)
    ensures v.size == size && v.data.Length == size as int
  {
    v := AllocateBuffer(size);
  }

  /** free_vector(&v) */
  method FreeVector(v: FloatVector)
    modifies v
    ensures v.data == null && v.size == old(v.size)
    ensures old(v.data) == null ==> unchanged(v)
  {
    Release(v);
  }

  /** vec_create(size): every element is 0.0f. */
  method VecCreate(size: uint32) returns (v: FloatVector)
    ensures fresh(v) && v.data != null && fresh(v.data)
    ensures v.size == size && v.Valid()
    ensures forall k :: 0 <= k < v.data.Length ==> v.data[k] == FloatZero
  {
    v := ZeroFilled(size, FloatZero);
  }

  /** vec_create_from_array(size, data) */
  method VecCreateFromArray(size: uint32, data: array<Float32>) returns (v: FloatVector)
    requires size as int <= data.Length
    ensures fresh(v) && v.data != null && fresh(v.data)
    ensures v.size == size && v.Valid()
    ensures v.data[..] == data[..size]
    ensures data[..] == old(data[..])
  {
    v := FromArray(size, data);
  }

  /** vec_copy(v) */
  method VecCopy(v: FloatVector) returns (copy: FloatVector)
    requires v.Valid() && (v.size == 0 || v.data != null)
    ensures fresh(copy) && copy.data != null && fresh(copy.data)
    ensures copy.size == v.size && copy.Valid() && copy.Elements() == v.Elements()
  {
    copy := DeepCopy(v);
  }

  // ---------------------------------------------------------------------
  // Double precision (dvector_t)
  // ---------------------------------------------------------------------

  /** allocate_d(size) */
  method AllocateD(size: uint32) returns (v: DoubleVector)
    ensures fresh(v) && v.data != null && fresh(v.data)
    ensures v.size == size && v.data.Length == size as int
  {
    v := AllocateBuffer(size);
  }

  /** free_dvector(&v) */
  method FreeDVector(v: DoubleVector)
    modifies v
    ensures v.data == null && v.size == old(v.size)
    ensures old(v.data) == null ==> unchanged(v)
  {
    Release(v);
  }

  /** dvec_create(size): every element is 0.0. */
  method DVecCreate(size: uint32) returns (v: DoubleVector)
    ensures fresh(v) && v.data != null && fresh(v.data)
    ensures v.size == size && v.Valid()
    ensures forall k :: 0 <= k < v.data.Length ==> v.data[k] == DoubleZero
  {
    v := ZeroFilled(size, DoubleZero);
  }

  /** dvec_create_from_array(size, data) */
  method DVecCreateFromArray(size: uint32, data: array<Float64>) returns (v: DoubleVector)
    requires size as int <= data.Length
    ensures fresh(v) && v.data != null && fresh(v.data)
    ensures v.size == size && v.Valid()
    ensures v.data[..] == data[..size]
    ensures data[..] == old(data[..])
  {
    v := FromArray(size, data);
  }

  /** dvec_copy(v) */
  method DVecCopy(v: DoubleVector) returns (copy: DoubleVector)
    requires v.Valid() && (v.size == 0 || v.data != null)
    ensures fresh(copy) && copy.data != null && fresh(copy.data)
    ensures copy.size == v.size && copy.Valid() && copy.Elements() == v.Elements()
  {
    copy := DeepCopy(v);
  }
}
