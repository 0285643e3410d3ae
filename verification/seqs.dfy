/** Sequence helpers shared by the tensor engine and the scheduler. */
module Seqs {

  function Min(a: nat, b: nat): nat {
    if a <= b then a else b
  }

  /** Row-major position of column `c` in row `r` of rows that are `width` long. */
  function Offset2(r: nat, c: nat, width: nat): nat {
    r * width + c
  }

  /** Row-major position of `[i][j][k]` in a `[_, t, width]` block. */
  function Offset3(i: nat, j: nat, k: nat, t: nat, width: nat): nat {
    i * t * width + j * width + k
  }

  /** The rows concatenated in order. */
  function Flatten<T>(rows: seq<seq<T>>): seq<T> {
    if |rows| == 0 then [] else rows[0] + Flatten(rows[1..])
  }

  ghost predicate Uniform<T>(rows: seq<seq<T>>, width: nat) {
    forall r :: 0 <= r < |rows| ==> |rows[r]| == width
  }

  lemma {:induction false} FlattenLength<T>(rows: seq<seq<T>>, width: nat)
    requires Uniform(rows, width)
    ensures |Flatten(rows)| == |rows| * width
  {
    if |rows| > 0 {
      FlattenLength(rows[1..], width);
      MulSucc(|rows| - 1, width);
    }
  }

  /** Flattening rows of one width lays element `c` of row `r` at `r * width + c`. */
  lemma {:induction false} FlattenAt<T>(rows: seq<seq<T>>, width: nat, r: nat, c: nat)
    requires Uniform(rows, width)
    requires r < |rows| && c < width
    ensures Offset2(r, c, width) < |Flatten(rows)|
    ensures Flatten(rows)[Offset2(r, c, width)] == rows[r][c]
  {
    FlattenLength(rows, width);
    if r > 0 {
      FlattenAt(rows[1..], width, r - 1, c);
      MulSucc(r - 1, width);
    }
  }

  lemma MulSucc(n: nat, width: nat)
    ensures (n + 1) * width == width + n * width
  {
  }

  lemma {:induction false} FlattenAppend<T>(a: seq<seq<T>>, b: seq<seq<T>>)
    ensures Flatten(a + b) == Flatten(a) + Flatten(b)
  {
    if |a| > 0 {
      assert (a + b)[1..] == a[1..] + b;
      FlattenAppend(a[1..], b);
    } else {
      assert a + b == b;
    }
  }

  lemma {:induction false} FlattenEmpty<T>(parts: seq<seq<T>>)
    requires forall i :: 0 <= i < |parts| ==> parts[i] == []
    ensures Flatten(parts) == []
  {
    if |parts| > 0 {
      FlattenEmpty(parts[1..]);
    }
  }
}
