/** The layout both sphere generators share: two nested loops over stacks
    and sectors, each iteration appending a few values to a buffer. `Row`
    is what the inner loop appends for one stack, `Grid` what the outer loop
    appends for the first stacks; the lemmas give the length and the place
    of every value. */
module MeshGrid {
  /** The values of the first `j` cells of stack `i`, in order. */
  function Row<T>(cell: (nat, nat) -> seq<T>, i: nat, j: nat): seq<T>
    decreases j
  {
    if j == 0 then [] else Row(cell, i, j - 1) + cell(i, j - 1)
  }

  /** The values of the first `i` stacks of `cols` cells each. */
  function Grid<T>(cell: (nat, nat) -> seq<T>, i: nat, cols: nat): seq<T>
    decreases i
  {
    if i == 0 then [] else Grid(cell, i - 1, cols) + Row(cell, i - 1, cols)
  }

  /** One more cell extends what the inner loop has appended by that cell's
      values. */
  lemma RowStep<T>(cell: (nat, nat) -> seq<T>, i: nat, j: nat, prefix: seq<T>)
    ensures prefix + Row(cell, i, j + 1) == prefix + Row(cell, i, j) + cell(i, j)
  {
  }

  /** One more stack extends what the outer loop has appended, after
      whatever the buffer held before, by that stack's values. */
  lemma GridStep<T>(cell: (nat, nat) -> seq<T>, i: nat, cols: nat, prefix: seq<T>)
    ensures prefix + Grid(cell, i + 1, cols) == prefix + Grid(cell, i, cols) + Row(cell, i, cols)
  {
  }

  /** Every cell of the first `rows` stacks holds `w` values. */
  ghost predicate Uniform<T>(cell: (nat, nat) -> seq<T>, rows: nat, cols: nat, w: nat) {
    forall a: nat, b: nat :: a < rows && b < cols ==> |cell(a, b)| == w
  }

  lemma MulMonotone(a: nat, b: nat, w: nat)
    requires a <= b
    ensures a * w <= b * w
  {
  }

  lemma {:induction false} RowLength<T>(cell: (nat, nat) -> seq<T>, i: nat, j: nat, w: nat)
    requires forall b: nat :: b < j ==> |cell(i, b)| == w
    ensures |Row(cell, i, j)| == j * w
    decreases j
  {
    if j > 0 {
      RowLength(cell, i, j - 1, w);
    }
  }

  /** Value `c` of cell `b` is item `b * w + c` of its stack's values. */
  lemma {:induction false} RowIndex<T>(cell: (nat, nat) -> seq<T>, i: nat, j: nat, w: nat, b: nat, c: nat)
    requires forall b': nat :: b' < j ==> |cell(i, b')| == w
    requires b < j && c < w
    ensures |Row(cell, i, j)| == j * w
    ensures b * w + c < j * w && Row(cell, i, j)[b * w + c] == cell(i, b)[c]
    decreases j
  {
    RowLength(cell, i, j, w);
    RowLength(cell, i, j - 1, w);
    if b < j - 1 {
      RowIndex(cell, i, j - 1, w, b, c);
      MulMonotone(j - 1, j, w);
    } else {
      assert b * w + c == |Row(cell, i, j - 1)| + c;
    }
  }

  lemma {:induction false} GridLength<T>(cell: (nat, nat) -> seq<T>, i: nat, cols: nat, w: nat)
    requires Uniform(cell, i, cols, w)
    ensures |Grid(cell, i, cols)| == i * (cols * w)
    decreases i
  {
    if i > 0 {
      GridLength(cell, i - 1, cols, w);
      RowLength(cell, i - 1, cols, w);
      var n := cols * w;
      assert |Grid(cell, i, cols)| == (i - 1) * n + n;
    }
  }

  lemma MulRearrange(a: nat, b: nat, w: nat)
    ensures a * (b * w) == w * (a * b)
  {
  }

  /** The same length, as `w` values for each of the `rows * cols` cells. */
  lemma GridSize<T>(cell: (nat, nat) -> seq<T>, rows: nat, cols: nat, w: nat)
    requires Uniform(cell, rows, cols, w)
    ensures |Grid(cell, rows, cols)| == w * (rows * cols)
  {
    GridLength(cell, rows, cols, w);
    MulRearrange(rows, cols, w);
  }

  lemma RowOffset(a: nat, cols: nat, w: nat, b: nat, c: nat)
    requires b < cols && c < w
    ensures (a * cols + b) * w + c == a * (cols * w) + (b * w + c)
    ensures b * w + c < cols * w
  {
    MulMonotone(b + 1, cols, w);
  }

  /** Value `c` of cell `(a, b)` is item `(a * cols + b) * w + c` of the
      buffer: the layout is stack-major. */
  lemma GridIndex<T>(cell: (nat, nat) -> seq<T>, i: nat, cols: nat, w: nat, a: nat, b: nat, c: nat)
    requires Uniform(cell, i, cols, w)
    requires a < i && b < cols && c < w
    ensures |Grid(cell, i, cols)| == i * (cols * w)
    ensures (a * cols + b) * w + c < i * (cols * w)
    ensures Grid(cell, i, cols)[(a * cols + b) * w + c] == cell(a, b)[c]
  {
    GridLength(cell, i, cols, w);
    RowOffset(a, cols, w, b, c);
    MulMonotone(a + 1, i, cols * w);
    RowIndex(cell, a, cols, w, b, c);
    GridStackIndex(cell, i, cols, w, a, b * w + c);
  }

  /** Item `k` of stack `a`'s values is item `a * (cols * w) + k` of the
      buffer. */
  lemma {:induction false} GridStackIndex<T>(cell: (nat, nat) -> seq<T>, i: nat, cols: nat, w: nat, a: nat, k: nat)
    requires Uniform(cell, i, cols, w)
    requires a < i && k < cols * w
    ensures |Row(cell, a, cols)| == cols * w
    ensures a * (cols * w) + k < |Grid(cell, i, cols)|
    ensures Grid(cell, i, cols)[a * (cols * w) + k] == Row(cell, a, cols)[k]
    decreases i
  {
    var n := cols * w;
    RowLength(cell, a, cols, w);
    GridLength(cell, i, cols, w);
    GridLength(cell, i - 1, cols, w);
    assert |Grid(cell, i - 1, cols)| == (i - 1) * n;
    MulMonotone(a + 1, i, n);
    if a < i - 1 {
      GridStackIndex(cell, i - 1, cols, w, a, k);
      MulMonotone(a + 1, i - 1, n);
    } else {
      assert a * n + k == |Grid(cell, i - 1, cols)| + k;
    }
  }

  /** A property every value of every cell has, every value of a stack has. */
  lemma {:induction false} RowAll<T>(cell: (nat, nat) -> seq<T>, i: nat, j: nat, P: T -> bool)
    requires forall b: nat, k: nat :: b < j && k < |cell(i, b)| ==> P(cell(i, b)[k])
    ensures forall k :: 0 <= k < |Row(cell, i, j)| ==> P(Row(cell, i, j)[k])
    decreases j
  {
    if j > 0 {
      RowAll(cell, i, j - 1, P);
      var prev := Row(cell, i, j - 1);
      forall k | 0 <= k < |Row(cell, i, j)|
        ensures P(Row(cell, i, j)[k])
      {
        if k >= |prev| {
          assert Row(cell, i, j)[k] == cell(i, j - 1)[k - |prev|];
        }
      }
    }
  }

  /** ... and so has every value of the buffer. */
  lemma {:induction false} GridAll<T>(cell: (nat, nat) -> seq<T>, i: nat, cols: nat, P: T -> bool)
    requires forall a: nat, b: nat, k: nat :: a < i && b < cols && k < |cell(a, b)| ==> P(cell(a, b)[k])
    ensures forall k :: 0 <= k < |Grid(cell, i, cols)| ==> P(Grid(cell, i, cols)[k])
    decreases i
  {
    if i > 0 {
      GridAll(cell, i - 1, cols, P);
      RowAll(cell, i - 1, cols, P);
      var prev := Grid(cell, i - 1, cols);
      forall k | 0 <= k < |Grid(cell, i, cols)|
        ensures P(Grid(cell, i, cols)[k])
      {
        if k >= |prev| {
          assert Grid(cell, i, cols)[k] == Row(cell, i - 1, cols)[k - |prev|];
        }
      }
    }
  }
}
