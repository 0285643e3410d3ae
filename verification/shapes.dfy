/** Shape arithmetic of the tensor engine: a shape is the list of dimension sizes. */
module Shapes {

  /** Number of elements a tensor of this shape holds: the product of its
      dimensions, and 1 for the empty shape of a scalar. */
  function Product(shape: seq<nat>): nat {
    if |shape| == 0 then 1 else shape[0] * Product(shape[1..])
  }

  /** The product of all dimensions but the last (`BBT`/`BTT` in the kernels): the number of rows. */
  function Rows(shape: seq<nat>): nat
    requires |shape| > 0
  {
    Product(shape[..|shape| - 1])
  }

  /** Distance between consecutive leading-index slices: the product of the trailing dimensions. */
  function Stride(shape: seq<nat>): nat {
    if |shape| == 0 then 1 else Product(shape[1..])
  }

  lemma {:induction false} ProductSnoc(shape: seq<nat>, d: nat)
    ensures Product(shape + [d]) == Product(shape) * d
  {
    if |shape| > 0 {
      assert (shape + [d])[1..] == shape[1..] + [d];
      ProductSnoc(shape[1..], d);
    } else {
      assert shape + [d] == [d];
    }
  }

  /** A shape holds no elements exactly when one of its dimensions is 0. */
  lemma {:induction false} ProductZero(shape: seq<nat>)
    ensures Product(shape) == 0 <==> exists i :: 0 <= i < |shape| && shape[i] == 0
  {
    if |shape| > 0 {
      ProductZero(shape[1..]);
      if Product(shape) == 0 {
        if shape[0] != 0 {
          var i :| 0 <= i < |shape[1..]| && shape[1..][i] == 0;
          assert shape[i + 1] == 0;
        }
      } else {
        forall i | 0 <= i < |shape|
          ensures shape[i] != 0
        {
          if i > 0 {
            assert shape[i] == shape[1..][i - 1];
          }
        }
      }
    }
  }

  /** The last dimension times the number of rows is the whole element count. */
  lemma RowsTimesLast(shape: seq<nat>)
    requires |shape| > 0
    ensures Rows(shape) * shape[|shape| - 1] == Product(shape)
  {
    assert shape == shape[..|shape| - 1] + [shape[|shape| - 1]];
    ProductSnoc(shape[..|shape| - 1], shape[|shape| - 1]);
  }

  /** `get_data_size_in_elements`: multiplies the dimensions together left to right. */
  method ElementCount(shape: seq<nat>) returns (size: nat)
    ensures size == Product(shape)
    ensures |shape| == 0 ==> size == 1
    ensures size == 0 <==> exists i :: 0 <= i < |shape| && shape[i] == 0
  {
    size := 1;
    var i := 0;
    while i < |shape|
      invariant 0 <= i <= |shape|
      invariant size == Product(shape[..i])
    {
      assert shape[..i + 1] == shape[..i] + [shape[i]];
      ProductSnoc(shape[..i], shape[i]);
      size := size * shape[i];
      i := i + 1;
    }
    assert shape[..i] == shape;
    ProductZero(shape);
  }
}
