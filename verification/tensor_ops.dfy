/** The tensor primitives whose host paths are data movement or exact
    arithmetic: gather, the dense matrix product, lerp, ReLU and squared ReLU,
    plus the device-agreement guards of the dispatching operations. Arithmetic
    is over `real`, an idealised stand-in for the source's `float`. */
module TensorOps {
  import opened Outcomes
  import opened Seqs
  import opened Shapes
  import opened TensorTypes
  import opened Tensors

  // ---------------------------------------------------------------- gather

  /** The rows gathered for one batch entry: source row `indices[j]` for each `j < time`. */
  function GatherBlock<T>(src: seq<T>, indices: seq<nat>, time: nat, width: nat): (r: seq<seq<T>>)
    requires time <= |indices|
    requires forall j :: 0 <= j < time ==> indices[j] * width + width <= |src|
    ensures |r| == time && Uniform(r, width)
    ensures forall j :: 0 <= j < time ==> r[j] == src[indices[j] * width .. indices[j] * width + width]
  {
    seq(time, j requires 0 <= j < time => src[indices[j] * width .. indices[j] * width + width])
  }

  /** Every index list is at least `time` long and every index names a whole source row. */
  predicate GatherReadable<T>(src: seq<T>, indices: seq<seq<nat>>, time: nat, width: nat) {
    forall i :: 0 <= i < |indices| ==>
      |indices[i]| >= time && forall j :: 0 <= j < time ==> indices[i][j] * width + width <= |src|
  }

  /** The gathered blocks, one per batch entry, each `time * width` long. */
  function GatherBlocks<T>(src: seq<T>, indices: seq<seq<nat>>, time: nat, width: nat): (r: seq<seq<T>>)
    requires GatherReadable(src, indices, time, width)
    ensures |r| == |indices| && Uniform(r, time * width)
    ensures forall i :: 0 <= i < |indices| ==> r[i] == Flatten(GatherBlock(src, indices[i], time, width))
  {
    var r := seq(|indices|, i requires 0 <= i < |indices| => Flatten(GatherBlock(src, indices[i], time, width)));
    assert Uniform(r, time * width) by {
      forall i | 0 <= i < |indices|
        ensures |r[i]| == time * width
      {
        FlattenLength(GatherBlock(src, indices[i], time, width), width);
      }
    }
    r
  }

  lemma Product3(a: nat, b: nat, c: nat)
    ensures Product([a, b, c]) == a * b * c
  {
    assert [a, b, c][1..] == [b, c];
    assert [b, c][1..] == [c];
    assert [c][1..] == [];
    assert Product([c]) == c;
    assert Product([b, c]) == b * c;
    assert Product([a, b, c]) == a * (b * c);
    assert a * (b * c) == a * b * c;
  }

  lemma Offset3Split(i: nat, j: nat, k: nat, time: nat, width: nat)
    ensures Offset3(i, j, k, time, width) == Offset2(i, Offset2(j, k, width), time * width)
  {
    assert i * time * width == i * (time * width);
  }

  /** Within one batch entry, element `[j][k]` is element `k` of source row `indices[j]`. */
  lemma GatherBlockAt<T>(src: seq<T>, indices: seq<nat>, time: nat, width: nat, j: nat, k: nat)
    requires time <= |indices|
    requires forall j :: 0 <= j < time ==> indices[j] * width + width <= |src|
    requires j < time && k < width
    ensures Offset2(j, k, width) < time * width == |Flatten(GatherBlock(src, indices, time, width))|
    ensures Offset2(indices[j], k, width) < |src|
    ensures Flatten(GatherBlock(src, indices, time, width))[Offset2(j, k, width)] == src[Offset2(indices[j], k, width)]
  {
    var block := GatherBlock(src, indices, time, width);
    FlattenLength(block, width);
    FlattenAt(block, width, j, k);
  }

  /** Element `[i][j][k]` of the gathered data is element `k` of source row `indices[i][j]`. */
  lemma GatherAt<T>(src: seq<T>, indices: seq<seq<nat>>, time: nat, width: nat, i: nat, j: nat, k: nat)
    requires GatherReadable(src, indices, time, width)
    requires i < |indices| && j < time && k < width
    ensures Offset2(indices[i][j], k, width) < |src|
    ensures Offset3(i, j, k, time, width) < |Flatten(GatherBlocks(src, indices, time, width))|
    ensures Flatten(GatherBlocks(src, indices, time, width))[Offset3(i, j, k, time, width)]
         == src[Offset2(indices[i][j], k, width)]
  {
    var blocks := GatherBlocks(src, indices, time, width);
    var q := Offset2(j, k, width);
    GatherBlockAt(src, indices[i], time, width, j, k);
    Offset3Split(i, j, k, time, width);
    FlattenAt(blocks, time * width, i, q);
  }

  /** The buffer after a host gather: the gathered rows, then the buffer's old tail. */
  function GatherBuffer<T>(src: seq<T>, indices: seq<seq<nat>>, time: nat, width: nat, c: seq<T>): (r: seq<T>)
    requires GatherReadable(src, indices, time, width)
    requires |indices| * time * width <= |c|
    ensures |r| == |c| && r[|indices| * time * width..] == c[|indices| * time * width..]
    ensures forall i, j, k :: 0 <= i < |indices| && 0 <= j < time && 0 <= k < width ==>
      && Offset3(i, j, k, time, width) < |indices| * time * width
      && Offset2(indices[i][j], k, width) < |src|
      && r[Offset3(i, j, k, time, width)] == src[Offset2(indices[i][j], k, width)]
  {
    var n := |indices| * time * width;
    var blocks := GatherBlocks(src, indices, time, width);
    FlattenLength(blocks, time * width);
    assert |indices| * (time * width) == n;
    var flat := Flatten(blocks);
    var out := flat + c[n..];
    assert forall i, j, k :: 0 <= i < |indices| && 0 <= j < time && 0 <= k < width ==>
      && Offset3(i, j, k, time, width) < n
      && Offset2(indices[i][j], k, width) < |src|
      && out[Offset3(i, j, k, time, width)] == src[Offset2(indices[i][j], k, width)] by {
      forall i, j, k | 0 <= i < |indices| && 0 <= j < time && 0 <= k < width
        ensures && Offset3(i, j, k, time, width) < n
                && Offset2(indices[i][j], k, width) < |src|
                && out[Offset3(i, j, k, time, width)] == src[Offset2(indices[i][j], k, width)]
      {
        GatherAt(src, indices, time, width, i, j, k);
        assert out[Offset3(i, j, k, time, width)] == flat[Offset3(i, j, k, time, width)];
      }
    }
    out
  }

  /** `gather`: lays the buffer out as `[batch, time, width]` — `batch` index lists,
      `time` the length of the first list, `width` the source's second dimension —
      and, on the host, copies source row `indices[i][j]` to position `[i][j]`.
      On the accelerator nothing is copied. Computing the buffer's element count
      goes through the source's own size helper, which also overwrites the
      SOURCE tensor's stored element count: the first component of the result. */
  function Gather<T>(src: Tensor<T>, indices: seq<seq<nat>>, buffer: Tensor<T>): (r: (Tensor<T>, Tensor<T>))
    requires |indices| > 0 && |src.shape| >= 2
    requires buffer.device == Cpu ==>
      && GatherReadable(src.data, indices, |indices[0]|, src.shape[1])
      && |indices| * |indices[0]| * src.shape[1] <= |buffer.data|
    ensures r.0 == src.(count := r.1.count)
    ensures r.1.shape == [|indices|, |indices[0]|, src.shape[1]]
    ensures r.1.count == |indices| * |indices[0]| * src.shape[1] == Product(r.1.shape)
    ensures r.1.bytes == r.1.count * SizeOf(buffer.elem)
    ensures r.1.device == buffer.device && r.1.elem == buffer.elem && r.1.originalBytes == buffer.originalBytes
    ensures buffer.device != Cpu ==> r.1.data == buffer.data
    ensures buffer.device == Cpu ==> r.1.data == GatherBuffer(src.data, indices, |indices[0]|, src.shape[1], buffer.data)
  {
    var batch, time, width := |indices|, |indices[0]|, src.shape[1];
    var shape := [batch, time, width];
    Product3(batch, time, width);
    var meta := UnsafeReshape(buffer, shape);
    var n := meta.count;
    if buffer.device != Cpu then
      (src.(count := n), meta)
    else
      (src.(count := n), meta.(data := GatherBuffer(src.data, indices, time, width, buffer.data)))
  }

  // ---------------------------------------------------------------- dense matmul

  /** `Σ_k a[k] * b[k]`. */
  function Dot(a: seq<real>, b: seq<real>): real
    requires |a| == |b|
  {
    if |a| == 0 then 0.0 else a[0] * b[0] + Dot(a[1..], b[1..])
  }

  /** The first `rows` rows of a row-major buffer whose rows are `width` long. */
  function SplitRows(s: seq<real>, rows: nat, width: nat): (r: seq<seq<real>>)
    requires rows * width <= |s|
    ensures |r| == rows && Uniform(r, width)
    decreases rows
  {
    if rows == 0 then []
    else
      MulSucc(rows - 1, width);
      [s[..width]] + SplitRows(s[width..], rows - 1, width)
  }

  lemma {:induction false} SplitRowsFlatten(s: seq<real>, rows: nat, width: nat)
    requires rows * width <= |s|
    ensures Flatten(SplitRows(s, rows, width)) == s[..rows * width]
    decreases rows
  {
    if rows > 0 {
      MulSucc(rows - 1, width);
      var rest := SplitRows(s[width..], rows - 1, width);
      SplitRowsFlatten(s[width..], rows - 1, width);
      assert ([s[..width]] + rest)[1..] == rest;
      assert s[..rows * width] == s[..width] + s[width..][..(rows - 1) * width];
    }
  }

  /** Element `c` of row `i` of the split buffer is element `i * width + c` of the buffer. */
  lemma SplitRowsAt(s: seq<real>, rows: nat, width: nat, i: nat, c: nat)
    requires rows * width <= |s|
    requires i < rows && c < width
    ensures Offset2(i, c, width) < |s| && SplitRows(s, rows, width)[i][c] == s[Offset2(i, c, width)]
  {
    var split := SplitRows(s, rows, width);
    SplitRowsFlatten(s, rows, width);
    FlattenAt(split, width, i, c);
  }

  /** Output row `b` of the product: one dot product per weight row. */
  function MatMulRow(weights: seq<seq<real>>, x: seq<real>, inDim: nat): (r: seq<real>)
    requires Uniform(weights, inDim) && |x| == inDim
    ensures |r| == |weights|
    ensures forall o :: 0 <= o < |weights| ==> r[o] == Dot(weights[o], x)
  {
    seq(|weights|, o requires 0 <= o < |weights| => Dot(weights[o], x))
  }

  /** The whole product, one output row per input row. */
  function MatMulTable(weights: seq<seq<real>>, inputs: seq<seq<real>>, inDim: nat): (r: seq<seq<real>>)
    requires Uniform(weights, inDim) && Uniform(inputs, inDim)
    ensures |r| == |inputs| && Uniform(r, |weights|)
    ensures forall b :: 0 <= b < |inputs| ==> r[b] == MatMulRow(weights, inputs[b], inDim)
  {
    seq(|inputs|, b requires 0 <= b < |inputs| => MatMulRow(weights, inputs[b], inDim))
  }

  /** The sizes the dense product reads: `IN` is the input's third dimension and
      `OUT` the result's third dimension. */
  function InDim(input: Tensor<real>): nat requires |input.shape| >= 3 { input.shape[2] }
  function OutDim(result: Tensor<real>): nat requires |result.shape| >= 3 { result.shape[2] }

  /** The buffers are long enough for every read and write of the host loops. */
  predicate MatMulFits(w: Tensor<real>, input: Tensor<real>, result: Tensor<real>)
    requires |input.shape| >= 3 && |result.shape| >= 3
  {
    && OutDim(result) * InDim(input) <= |w.data|
    && Rows(input.shape) * InDim(input) <= |input.data|
    && Rows(input.shape) * OutDim(result) <= |result.data|
  }

  /** The product written into a buffer of `rows * outDim` leading elements;
      the rest of the buffer is kept. */
  function MatMulBuffer(w: seq<real>, x: seq<real>, c: seq<real>, rows: nat, inDim: nat, outDim: nat): (r: seq<real>)
    requires outDim * inDim <= |w| && rows * inDim <= |x| && rows * outDim <= |c|
    ensures |r| == |c| && r[rows * outDim..] == c[rows * outDim..]
    ensures forall b, o :: 0 <= b < rows && 0 <= o < outDim ==>
      Offset2(b, o, outDim) < rows * outDim &&
      r[Offset2(b, o, outDim)] == Dot(SplitRows(w, outDim, inDim)[o], SplitRows(x, rows, inDim)[b])
  {
    var weights, inputs := SplitRows(w, outDim, inDim), SplitRows(x, rows, inDim);
    var table := MatMulTable(weights, inputs, inDim);
    FlattenLength(table, outDim);
    var flat := Flatten(table);
    var out := flat + c[rows * outDim..];
    assert forall b, o :: 0 <= b < rows && 0 <= o < outDim ==>
      Offset2(b, o, outDim) < rows * outDim && out[Offset2(b, o, outDim)] == Dot(weights[o], inputs[b]) by {
      forall b, o | 0 <= b < rows && 0 <= o < outDim
        ensures Offset2(b, o, outDim) < rows * outDim && out[Offset2(b, o, outDim)] == Dot(weights[o], inputs[b])
      {
        var p := Offset2(b, o, outDim);
        FlattenAt(table, outDim, b, o);
        assert out[p] == flat[p];
        assert table[b] == MatMulRow(weights, inputs[b], inDim);
      }
    }
    out
  }

  /** Dense `matmul` on the host. `BBT` is the product of all input dimensions but
      the last. Asserts that the result holds `BBT * OUT` elements, then writes
      output `o` of row `b` at `b * OUT + o` as the dot product of weight row `o`
      with input row `b`. Nothing else of the result changes. */
  function MatMul(w: Tensor<real>, input: Tensor<real>, result: Tensor<real>): (r: Result<Tensor<real>>)
    requires |input.shape| >= 3 && |result.shape| >= 3
    requires result.count == Rows(input.shape) * OutDim(result) ==> MatMulFits(w, input, result)
    ensures r.Success? <==> result.count == Rows(input.shape) * OutDim(result)
    ensures r.Success? ==> r.value.(data := result.data) == result
    ensures r.Success? ==> r.value.data == MatMulBuffer(w.data, input.data, result.data, Rows(input.shape), InDim(input), OutDim(result))
  {
    var inDim, outDim, rows := InDim(input), OutDim(result), Rows(input.shape);
    if result.count != rows * outDim then
      Failure(AssertionFailed("result.data_size_in_elements == BBT * OUT"))
    else
      Success(result.(data := MatMulBuffer(w.data, input.data, result.data, rows, inDim, outDim)))
  }

  lemma {:induction false} DotZero(a: seq<real>, b: seq<real>)
    requires |a| == |b|
    requires forall k :: 0 <= k < |a| ==> a[k] == 0.0
    ensures Dot(a, b) == 0.0
  {
    if |a| > 0 {
      DotZero(a[1..], b[1..]);
    }
  }

  /** Against a one-hot vector, the dot product picks out one element. */
  lemma {:induction false} DotOneHot(a: seq<real>, b: seq<real>, hot: nat)
    requires |a| == |b| && hot < |a|
    requires forall k :: 0 <= k < |a| ==> a[k] == (if k == hot then 1.0 else 0.0)
    ensures Dot(a, b) == b[hot]
  {
    if hot == 0 {
      DotZero(a[1..], b[1..]);
    } else {
      DotOneHot(a[1..], b[1..], hot - 1);
    }
  }

  /** With identity weights the dense product copies every input row to the output. */
  lemma MatMulIdentity(w: Tensor<real>, input: Tensor<real>, result: Tensor<real>)
    requires |input.shape| >= 3 && |result.shape| >= 3
    requires InDim(input) == OutDim(result)
    requires result.count == Rows(input.shape) * OutDim(result)
    requires MatMulFits(w, input, result)
    requires forall o, k :: 0 <= o < OutDim(result) && 0 <= k < InDim(input) ==>
      Offset2(o, k, InDim(input)) < |w.data| && w.data[Offset2(o, k, InDim(input))] == (if o == k then 1.0 else 0.0)
    ensures MatMul(w, input, result).Success?
    ensures forall b, o :: 0 <= b < Rows(input.shape) && 0 <= o < OutDim(result) ==>
      && Offset2(b, o, OutDim(result)) < |result.data|
      && Offset2(b, o, InDim(input)) < |input.data|
      && MatMul(w, input, result).value.data[Offset2(b, o, OutDim(result))] == input.data[Offset2(b, o, InDim(input))]
  {
    var n, rows := InDim(input), Rows(input.shape);
    var r := MatMul(w, input, result).value;
    var weights, inputs := SplitRows(w.data, n, n), SplitRows(input.data, rows, n);
    assert r.data == MatMulBuffer(w.data, input.data, result.data, rows, n, n);
    forall b, o | 0 <= b < rows && 0 <= o < n
      ensures && Offset2(b, o, n) < |result.data|
              && Offset2(b, o, n) < |input.data|
              && r.data[Offset2(b, o, n)] == input.data[Offset2(b, o, n)]
    {
      forall k | 0 <= k < n
        ensures weights[o][k] == (if k == o then 1.0 else 0.0)
      {
        SplitRowsAt(w.data, n, n, o, k);
      }
      DotOneHot(weights[o], inputs[b], o);
      SplitRowsAt(input.data, rows, n, b, o);
    }
  }

  // ---------------------------------------------------------------- lerp

  /** `lerp` on the host, with this tensor `w` as the blend weight: the result takes
      `t2`'s shape, and element `i` blends `t2` and `t1` by weight `i mod IN`,
      where `IN` is the weight's first dimension. */
  function Lerp(w: Tensor<real>, t1: Tensor<real>, t2: Tensor<real>, result: Tensor<real>): (r: Tensor<real>)
    requires w.device == Cpu
    requires |w.shape| > 0 && 0 < w.shape[0] <= |w.data|
    requires Product(t2.shape) <= |t1.data| && Product(t2.shape) <= |t2.data| && Product(t2.shape) <= |result.data|
    ensures r.shape == t2.shape && r.count == Product(t2.shape) && r.bytes == r.count * SizeOf(result.elem)
    ensures r.device == result.device && r.elem == result.elem && r.originalBytes == result.originalBytes
    ensures |r.data| == |result.data| && r.data[r.count..] == result.data[r.count..]
    ensures forall i :: 0 <= i < r.count ==>
      r.data[i] == t2.data[i] * w.data[i % w.shape[0]] + t1.data[i] * (1.0 - w.data[i % w.shape[0]])
  {
    var n, width := Product(t2.shape), w.shape[0];
    var blended := seq(n, i requires 0 <= i < n => t2.data[i] * w.data[i % width] + t1.data[i] * (1.0 - w.data[i % width]));
    UnsafeReshape(result, t2.shape).(data := blended + result.data[n..])
  }

  /** An all-zero weight selects the first tensor. */
  lemma LerpZero(w: Tensor<real>, t1: Tensor<real>, t2: Tensor<real>, result: Tensor<real>)
    requires w.device == Cpu
    requires |w.shape| > 0 && 0 < w.shape[0] <= |w.data|
    requires Product(t2.shape) <= |t1.data| && Product(t2.shape) <= |t2.data| && Product(t2.shape) <= |result.data|
    requires forall k :: 0 <= k < w.shape[0] ==> w.data[k] == 0.0
    ensures Lerp(w, t1, t2, result).data[..Product(t2.shape)] == t1.data[..Product(t2.shape)]
  {
  }

  /** An all-one weight selects the second tensor. */
  lemma LerpOne(w: Tensor<real>, t1: Tensor<real>, t2: Tensor<real>, result: Tensor<real>)
    requires w.device == Cpu
    requires |w.shape| > 0 && 0 < w.shape[0] <= |w.data|
    requires Product(t2.shape) <= |t1.data| && Product(t2.shape) <= |t2.data| && Product(t2.shape) <= |result.data|
    requires forall k :: 0 <= k < w.shape[0] ==> w.data[k] == 1.0
    ensures Lerp(w, t1, t2, result).data[..Product(t2.shape)] == t2.data[..Product(t2.shape)]
  {
  }

  // ---------------------------------------------------------------- activations

  function Max0(x: real): real {
    if x >= 0.0 then x else 0.0
  }

  /** `x * x`, which is never negative and is zero only at zero. */
  function Square(x: real): (r: real)
    ensures r >= 0.0
    ensures r == 0.0 <==> x == 0.0
  {
    if x >= 0.0 then PositiveProduct(x, x); x * x
    else PositiveProduct(-x, -x); x * x
  }

  lemma PositiveProduct(x: real, y: real)
    requires x >= 0.0 && y >= 0.0
    ensures x * y >= 0.0
    ensures x * y == 0.0 <==> x == 0.0 || y == 0.0
  {
  }

  /** `relu` on the host: the result takes this tensor's shape and holds `max(x, 0)`
      for each of this tensor's `count` elements. */
  function Relu(t: Tensor<real>, result: Tensor<real>): (r: Tensor<real>)
    requires t.device == Cpu
    requires t.count <= |t.data| && t.count <= |result.data|
    ensures r.shape == t.shape && r.count == Product(t.shape) && r.bytes == r.count * SizeOf(result.elem)
    ensures r.device == result.device && r.elem == result.elem
    ensures |r.data| == |result.data| && r.data[t.count..] == result.data[t.count..]
    ensures forall i :: 0 <= i < t.count ==> r.data[i] >= 0.0 && (r.data[i] == t.data[i] || r.data[i] == 0.0)
    ensures forall i :: 0 <= i < t.count ==> (r.data[i] == t.data[i] <==> t.data[i] >= 0.0)
  {
    UnsafeReshape(result, t.shape).(data := seq(t.count, i requires 0 <= i < t.count => Max0(t.data[i])) + result.data[t.count..])
  }

  /** `relusquare` on the host: as `relu`, squared. */
  function ReluSquare(t: Tensor<real>, result: Tensor<real>): (r: Tensor<real>)
    requires t.device == Cpu
    requires t.count <= |t.data| && t.count <= |result.data|
    ensures r.shape == t.shape && r.count == Product(t.shape) && r.bytes == r.count * SizeOf(result.elem)
    ensures r.device == result.device && r.elem == result.elem
    ensures |r.data| == |result.data| && r.data[t.count..] == result.data[t.count..]
    ensures forall i :: 0 <= i < t.count ==> r.data[i] >= 0.0
    ensures forall i :: 0 <= i < t.count ==> (r.data[i] == 0.0 <==> t.data[i] <= 0.0)
  {
    UnsafeReshape(result, t.shape).(data := seq(t.count, i requires 0 <= i < t.count => Square(Max0(t.data[i]))) + result.data[t.count..])
  }

  /** Squared ReLU is ReLU multiplied by itself, element by element. */
  lemma ReluSquareIsSquaredRelu(t: Tensor<real>, result: Tensor<real>)
    requires t.device == Cpu
    requires t.count <= |t.data| && t.count <= |result.data|
    ensures forall i :: 0 <= i < t.count ==>
      ReluSquare(t, result).data[i] == Relu(t, result).data[i] * Relu(t, result).data[i]
  {
  }

  /** ReLU is idempotent: applying it to its own output changes nothing it computed. */
  lemma ReluIdempotent(t: Tensor<real>, result: Tensor<real>)
    requires t.device == Cpu && Valid(t)
    requires t.count <= |result.data|
    ensures Valid(Relu(t, result))
    ensures Relu(t, result).device == Cpu ==>
      Relu(Relu(t, result), result).data[..t.count] == Relu(t, result).data[..t.count]
  {
  }

  // ---------------------------------------------------------------- device guards

  /** The two kernels a dispatching operation can route to; their bodies are not part of this model. */
  type Kernel3<!T> = (Tensor<T>, Tensor<T>, Tensor<T>) -> Tensor<T>

  /** Dynamic `add`: asserts that all three operands carry one device tag, then runs
      the host or accelerator kernel; any other tag only reports and leaves the
      result as it was. */
  function Add<T>(a: Tensor<T>, b: Tensor<T>, result: Tensor<T>, host: Kernel3<T>, accel: Kernel3<T>): (r: Result<Tensor<T>>)
    ensures r.Success? <==> a.device == b.device == result.device
    ensures r.Success? && a.device == Cpu ==> r.value == host(a, b, result)
    ensures r.Success? && a.device == Vulkan ==> r.value == accel(a, b, result)
    ensures r.Success? && a.device != Cpu && a.device != Vulkan ==> r.value == result
  {
    if !(a.device == b.device && a.device == result.device) then
      Failure(AssertionFailed("all on same device"))
    else if a.device == Cpu then Success(host(a, b, result))
    else if a.device == Vulkan then Success(accel(a, b, result))
    else Success(result)
  }

  type Kernel5<!Q, !T> = (Tensor<Q>, Tensor<T>, Tensor<T>, Tensor<T>, Tensor<T>) -> Tensor<T>

  /** Quantized `matmul` dispatcher: asserts that the 8-bit weights, their scale and
      offset, the input and the result share one device tag, then routes like `Add`. */
  function QuantMatMul<Q, T>(w: Tensor<Q>, scale: Tensor<T>, offset: Tensor<T>, input: Tensor<T>, result: Tensor<T>,
                            host: Kernel5<Q, T>, accel: Kernel5<Q, T>): (r: Result<Tensor<T>>)
    ensures r.Success? <==> w.device == scale.device == offset.device == input.device == result.device
    ensures r.Success? && w.device == Cpu ==> r.value == host(w, scale, offset, input, result)
    ensures r.Success? && w.device == Vulkan ==> r.value == accel(w, scale, offset, input, result)
    ensures r.Success? && w.device != Cpu && w.device != Vulkan ==> r.value == result
  {
    if !(w.device == scale.device && w.device == offset.device && w.device == input.device && w.device == result.device) then
      Failure(AssertionFailed("all on same device"))
    else if w.device == Cpu then Success(host(w, scale, offset, input, result))
    else if w.device == Vulkan then Success(accel(w, scale, offset, input, result))
    else Success(result)
  }

  /** The layer-norm device check: the four tags must sum to a multiple of 4. */
  predicate LayerNormDevicesPass(x: DeviceTag, weight: DeviceTag, bias: DeviceTag, result: DeviceTag) {
    (x + weight + bias + result) % 4 == 0
  }

  type Kernel4<!T> = (Tensor<T>, Tensor<T>, Tensor<T>, Tensor<T>) -> Tensor<T>

  /** `layernorm`'s checks and routing: asserts equal element counts of input and
      result, then the device sum, then runs the host kernel for a host input; any
      other tag takes the accelerator branch, which asserts `OUT % 32 == 0`. */
  function LayerNorm<T>(x: Tensor<T>, weight: Tensor<T>, bias: Tensor<T>, result: Tensor<T>,
                        host: Kernel4<T>, accel: Kernel4<T>): (r: Result<Tensor<T>>)
    requires |x.shape| > 0
    ensures r.Success? <==>
      && result.count == x.count
      && LayerNormDevicesPass(x.device, weight.device, bias.device, result.device)
      && (x.device != Cpu ==> x.shape[|x.shape| - 1] % 32 == 0)
    ensures r.Success? && x.device == Cpu ==> r.value == host(x, weight, bias, result)
    ensures r.Success? && x.device != Cpu ==> r.value == accel(x, weight, bias, result)
  {
    if result.count != x.count then Failure(AssertionFailed("result.data_size_in_elements == this->data_size_in_elements"))
    else if !LayerNormDevicesPass(x.device, weight.device, bias.device, result.device) then
      Failure(AssertionFailed("devicemap % 4 == 0"))
    else if x.device == Cpu then Success(host(x, weight, bias, result))
    else if x.shape[|x.shape| - 1] % 32 != 0 then Failure(AssertionFailed("OUT % BLOCKSIZE == 0"))
    else Success(accel(x, weight, bias, result))
  }

  /** With the two tags the engine defines, the sum check holds exactly when all four tags agree. */
  lemma LayerNormDevicesAgree(x: DeviceTag, weight: DeviceTag, bias: DeviceTag, result: DeviceTag)
    requires x <= 1 && weight <= 1 && bias <= 1 && result <= 1
    ensures LayerNormDevicesPass(x, weight, bias, result) <==> x == weight == bias == result
  {
  }

  /** Beyond those two tags the sum check is weaker than agreement: some
      four tags that do not all agree pass it. */
  lemma LayerNormMixedTagsPass()
    ensures exists x: DeviceTag, weight: DeviceTag, bias: DeviceTag, result: DeviceTag ::
      LayerNormDevicesPass(x, weight, bias, result) && !(x == weight == bias == result)
  {
    assert LayerNormDevicesPass(0, 0, 2, 2);
  }
}
