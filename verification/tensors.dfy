/** Tensors of the engine: a shape, a flat buffer, the element count and byte
    size the tensor records for itself, and a device tag. */
module Tensors {
  import opened Outcomes
  import opened Seqs
  import opened Shapes
  import opened TensorTypes

  /** A device tag is a `uint16_t`: 0 is the host, 1 the accelerator. */
  type DeviceTag = t: nat | t < 0x1_0000
  const Cpu: DeviceTag := 0
  const Vulkan: DeviceTag := 1

  /** `data` is the buffer from the tensor's data pointer to the end of its
      allocation; `count`, `bytes` and `originalBytes` are the stored
      `data_size_in_elements`, `data_size_in_bytes` and
      `total_original_allocated_bytes`; `elem` is the C++ element type. */
  datatype Tensor<T> = Tensor(
    shape: seq<nat>,
    data: seq<T>,
    count: nat,
    bytes: nat,
    originalBytes: nat,
    device: DeviceTag,
    elem: CType)

  /** The stored sizes agree with the shape, and the buffer holds that many elements. */
  predicate Valid<T>(t: Tensor<T>) {
    && t.count == Product(t.shape)
    && t.bytes == t.count * SizeOf(t.elem)
    && t.count <= |t.data|
  }

  /** `Tensor()`: no shape and no buffer, with a stored element count of 0 — which
      disagrees with the count 1 of the empty shape. */
  function Empty<T>(elem: CType): (r: Tensor<T>)
    ensures r.shape == [] && r.data == []
    ensures r.count == 0 && r.bytes == 0 && r.originalBytes == 0
    ensures !Valid(r)
  {
    Tensor([], [], 0, 0, 0, Cpu, elem)
  }

  /** `Tensor(shape, data)`: wraps an existing buffer under a shape; the device tag
      is left at its default, the host. */
  function Wrap<T>(shape: seq<nat>, elem: CType, buffer: seq<T>): (r: Tensor<T>)
    ensures r.shape == shape && r.data == buffer && r.device == Cpu
    ensures r.count == Product(shape) && r.bytes == r.count * SizeOf(elem)
    ensures r.originalBytes == r.bytes
    ensures Product(shape) <= |buffer| <==> Valid(r)
  {
    var n := Product(shape);
    Tensor(shape, buffer, n, n * SizeOf(elem), n * SizeOf(elem), Cpu, elem)
  }

  /** `Tensor(shape)`: a fresh host buffer of exactly `Product(shape)` elements whose
      contents are unspecified; `garbage` stands for whatever the memory holds. */
  function Allocate<T>(shape: seq<nat>, elem: CType, garbage: int -> T): (r: Tensor<T>)
    ensures Valid(r) && |r.data| == r.count
    ensures r.shape == shape && r.count == Product(shape)
    ensures r.bytes == Product(shape) * SizeOf(elem) && r.originalBytes == r.bytes
    ensures r.device == Cpu
  {
    Wrap(shape, elem, seq(Product(shape), i => garbage(i)))
  }

  /** `fill` on the host: the first `count` elements become `v`; the rest of the
      buffer and all metadata are kept. */
  function Fill<T>(t: Tensor<T>, v: T): (r: Tensor<T>)
    requires t.device == Cpu
    requires t.count <= |t.data|
    ensures |r.data| == |t.data|
    ensures forall i :: 0 <= i < t.count ==> r.data[i] == v
    ensures forall i :: t.count <= i < |t.data| ==> r.data[i] == t.data[i]
    ensures r.(data := t.data) == t
  {
    t.(data := seq(t.count, _ => v) + t.data[t.count..])
  }

  /** A second fill overwrites the first entirely. */
  lemma FillTwice<T>(t: Tensor<T>, v: T, w: T)
    requires t.device == Cpu
    requires t.count <= |t.data|
    ensures Fill(Fill(t, v), w) == Fill(t, w)
  {
    assert Fill(Fill(t, v), w).data == Fill(t, w).data;
  }

  /** `Tensor(shape, value)`: allocates and fills with `value`; asserts that the
      byte size is positive, which fails exactly when some dimension is 0. */
  function Filled<T>(shape: seq<nat>, elem: CType, v: T): (r: Result<Tensor<T>>)
    ensures r.Failure? <==> exists i :: 0 <= i < |shape| && shape[i] == 0
    ensures r.Success? ==> Valid(r.value) && r.value.shape == shape && |r.value.data| == Product(shape)
    ensures r.Success? ==> forall i :: 0 <= i < |r.value.data| ==> r.value.data[i] == v
  {
    var t := Allocate(shape, elem, _ => v);
    ProductZero(shape);
    if t.bytes > 0 then Success(Fill(t, v))
    else Failure(AssertionFailed("data_size_in_bytes > 0"))
  }

  /** `reshape`: takes the new shape and asserts that it has as many elements as
      the tensor records; the buffer is untouched. */
  function Reshape<T>(t: Tensor<T>, shape: seq<nat>): (r: Result<Tensor<T>>)
    ensures r.Success? <==> Product(shape) == t.count
    ensures r.Success? ==> r.value.shape == shape && r.value.count == t.count && r.value.data == t.data
    ensures r.Success? ==> r.value.device == t.device && r.value.elem == t.elem && r.value.originalBytes == t.originalBytes
    ensures r.Success? && Valid(t) ==> Valid(r.value)
  {
    if Product(shape) == t.count then Success(UnsafeReshape(t, shape))
    else Failure(AssertionFailed("newsize == data_size_in_elements"))
  }

  /** `unsafereshape`: takes the new shape and its element count without any check. */
  function UnsafeReshape<T>(t: Tensor<T>, shape: seq<nat>): (r: Tensor<T>)
    ensures r.shape == shape && r.count == Product(shape) && r.bytes == r.count * SizeOf(t.elem)
    ensures r.data == t.data && r.device == t.device && r.elem == t.elem && r.originalBytes == t.originalBytes
    ensures Valid(r) <==> Product(shape) <= |t.data|
  {
    var n := Product(shape);
    t.(shape := shape, count := n, bytes := n * SizeOf(t.elem))
  }

  /** Reshaping to another shape of the same size and back restores the tensor. */
  lemma ReshapeRoundTrip<T>(t: Tensor<T>, shape: seq<nat>)
    requires Valid(t)
    requires Product(shape) == t.count
    ensures Reshape(t, shape).Success?
    ensures Reshape(Reshape(t, shape).value, t.shape) == Success(t)
  {
  }

  /** On a size-preserving shape the checked and unchecked reshapes agree. */
  lemma ReshapeIsCheckedUnsafe<T>(t: Tensor<T>, shape: seq<nat>)
    ensures Reshape(t, shape).Success? ==> Reshape(t, shape).value == UnsafeReshape(t, shape)
    ensures Reshape(t, shape).Failure? <==> UnsafeReshape(t, shape).count != t.count
  {
  }

  /** `operator[]`: a view of the leading-index slice `index`, shaped as the trailing
      dimensions and starting `index * stride` elements into the buffer. It is built
      with the wrapping constructor, so its device tag is the host's. */
  function At<T>(t: Tensor<T>, index: nat): (r: Tensor<T>)
    requires index * Stride(t.shape) <= |t.data|
    ensures r.shape == (if |t.shape| == 0 then [] else t.shape[1..])
    ensures r.count == Stride(t.shape)
    ensures |r.data| == |t.data| - index * Stride(t.shape)
    ensures forall j :: 0 <= j < |r.data| ==> r.data[j] == t.data[index * Stride(t.shape) + j]
    ensures r.device == Cpu && r.elem == t.elem
  {
    var tail := if |t.shape| == 0 then [] else t.shape[1..];
    Wrap(tail, t.elem, t.data[index * Stride(t.shape)..])
  }

  lemma MulMono(a: nat, b: nat, c: nat)
    requires a <= b
    ensures a * c <= b * c
  {
  }

  /** Every leading index below the first dimension of a valid tensor selects a
      valid view lying wholly inside the parent's elements. */
  lemma AtInBounds<T>(t: Tensor<T>, index: nat)
    requires Valid(t)
    requires |t.shape| > 0 && index < t.shape[0]
    ensures index * Stride(t.shape) + Stride(t.shape) <= t.count
    ensures Valid(At(t, index))
  {
    var s := Stride(t.shape);
    MulMono(index + 1, t.shape[0], s);
    assert (index + 1) * s == index * s + s;
  }

  /** `clone`: copies shape, element count, byte size and the first `count` elements
      of `src` into the buffer of `dst`; a byte-size mismatch is only reported. The
      device tag, element type and allocation record of `dst` stay. */
  function Clone<T>(dst: Tensor<T>, src: Tensor<T>): (r: Tensor<T>)
    requires src.count <= |src.data| && src.count <= |dst.data|
    ensures r.shape == src.shape && r.count == src.count && r.bytes == src.bytes
    ensures r.device == dst.device && r.elem == dst.elem && r.originalBytes == dst.originalBytes
    ensures |r.data| == |dst.data|
    ensures r.data[..src.count] == src.data[..src.count]
    ensures r.data[src.count..] == dst.data[src.count..]
  {
    dst.(shape := src.shape, count := src.count, bytes := src.bytes,
         data := src.data[..src.count] + dst.data[src.count..])
  }

  /** Cloning a valid tensor into a buffer of the same element type gives a valid
      tensor that agrees with the source on every element it owns. */
  lemma CloneValid<T>(dst: Tensor<T>, src: Tensor<T>)
    requires Valid(src) && src.count <= |dst.data| && dst.elem == src.elem
    ensures Valid(Clone(dst, src))
    ensures forall i :: 0 <= i < src.count ==> Clone(dst, src).data[i] == src.data[i]
  {
    var r := Clone(dst, src);
    forall i | 0 <= i < src.count
      ensures r.data[i] == src.data[i]
    {
      assert r.data[i] == r.data[..src.count][i];
    }
  }
}
