/** The row-major double loop of `PixelEditor::render`,
    `RecursiveRenderer::render` and `renderPixelRecursive`: for y from 0, for
    x from 0, emit the block of cell (y, x). It is stated over an arbitrary
    block function. `Editor.GridOps` is defined with it directly; `Preview`
    keeps its own recursive copies, proved equal to it. The palette's single
    loop does not use it. */
module Scan {

  /** The blocks of cells (y, 0) .. (y, x - 1), in order. */
  function Row<T>(cell: (nat, nat) -> seq<T>, y: nat, x: nat): seq<T> {
    if x == 0 then [] else Row(cell, y, x - 1) + cell(y, x - 1)
  }

  /** The blocks of rows 0 .. y - 1, each row n cells wide. */
  function Rows<T>(cell: (nat, nat) -> seq<T>, n: nat, y: nat): seq<T> {
    if y == 0 then [] else Rows(cell, n, y - 1) + Row(cell, y - 1, n)
  }

  /** Marked cells among (y, 0) .. (y, x - 1). */
  function RowTally(mark: (nat, nat) -> bool, y: nat, x: nat): nat {
    if x == 0 then 0 else RowTally(mark, y, x - 1) + (if mark(y, x - 1) then 1 else 0)
  }

  /** Marked cells in rows 0 .. y - 1, each row n cells wide. */
  function Tally(mark: (nat, nat) -> bool, n: nat, y: nat): nat {
    if y == 0 then 0 else Tally(mark, n, y - 1) + RowTally(mark, y - 1, n)
  }

  /** Everything a visited cell emits appears in the scan. */
  lemma {:induction false} RowCovers<T>(cell: (nat, nat) -> seq<T>, y: nat, x: nat, i: nat, e: T)
    requires i < x && e in cell(y, i)
    ensures e in Row(cell, y, x)
  {
    assert Row(cell, y, x) == Row(cell, y, x - 1) + cell(y, x - 1);
    if i < x - 1 {
      RowCovers(cell, y, x - 1, i, e);
    }
  }

  lemma {:induction false} RowsCovers<T>(cell: (nat, nat) -> seq<T>, n: nat, y: nat, i: nat, j: nat, e: T)
    requires j < y && i < n && e in cell(j, i)
    ensures e in Rows(cell, n, y)
  {
    assert Rows(cell, n, y) == Rows(cell, n, y - 1) + Row(cell, y - 1, n);
    if j < y - 1 {
      RowsCovers(cell, n, y - 1, i, j, e);
    } else {
      RowCovers(cell, j, n, i, e);
    }
  }

  /** Everything in the scan was emitted by a visited cell: the one
      returned. */
  lemma {:induction false} RowSound<T>(cell: (nat, nat) -> seq<T>, y: nat, x: nat, e: T) returns (i: nat)
    requires e in Row(cell, y, x)
    ensures i < x && e in cell(y, i)
  {
    if e in Row(cell, y, x - 1) {
      i := RowSound(cell, y, x - 1, e);
    } else {
      i := x - 1;
    }
  }

  lemma {:induction false} RowsSound<T>(cell: (nat, nat) -> seq<T>, n: nat, y: nat, e: T) returns (j: nat, i: nat)
    requires e in Rows(cell, n, y)
    ensures j < y && i < n && e in cell(j, i)
  {
    var prev, row := Rows(cell, n, y - 1), Row(cell, y - 1, n);
    assert e in prev + row;
    if e in prev {
      j, i := RowsSound(cell, n, y - 1, e);
    } else {
      j := y - 1;
      i := RowSound(cell, y - 1, n, e);
    }
  }

  /** Equal parts make equal concatenations. */
  lemma Concat<T>(a: seq<T>, b: seq<T>, c: seq<T>, d: seq<T>)
    requires a == c && b == d
    ensures a + b == c + d
  {
  }

  /** One more cell of row y, after whatever was emitted before the row. */
  lemma RowStep<T>(cell: (nat, nat) -> seq<T>, before: seq<T>, y: nat, x: nat)
    ensures before + Row(cell, y, x + 1) == (before + Row(cell, y, x)) + cell(y, x)
  {
    assert Row(cell, y, x + 1) == Row(cell, y, x) + cell(y, x);
  }

  /** One more whole row. */
  lemma RowsStep<T>(cell: (nat, nat) -> seq<T>, n: nat, y: nat)
    ensures Rows(cell, n, y + 1) == Rows(cell, n, y) + Row(cell, y, n)
  {
  }

  lemma StepProduct(a: nat, k: nat)
    ensures (a + 1) * k == a * k + k
  {
  }

  lemma SumProduct(a: nat, b: nat, k: nat)
    ensures a * k + b * k == (a + b) * k
  {
  }

  /** When every marked cell emits k elements and every other cell none, a
      row emits k per marked cell. */
  lemma {:induction false} RowLength<T>(cell: (nat, nat) -> seq<T>, mark: (nat, nat) -> bool, k: nat, y: nat, x: nat)
    requires forall i: nat :: i < x ==> |cell(y, i)| == if mark(y, i) then k else 0
    ensures |Row(cell, y, x)| == RowTally(mark, y, x) * k
  {
    if x > 0 {
      RowLength(cell, mark, k, y, x - 1);
      if mark(y, x - 1) {
        StepProduct(RowTally(mark, y, x - 1), k);
      }
    }
  }

  lemma {:induction false} RowsLength<T>(cell: (nat, nat) -> seq<T>, mark: (nat, nat) -> bool, k: nat, n: nat, y: nat)
    requires forall j: nat, i: nat :: j < y && i < n ==> |cell(j, i)| == if mark(j, i) then k else 0
    ensures |Rows(cell, n, y)| == Tally(mark, n, y) * k
  {
    if y > 0 {
      RowsLength(cell, mark, k, n, y - 1);
      RowLength(cell, mark, k, y - 1, n);
      SumProduct(Tally(mark, n, y - 1), RowTally(mark, y - 1, n), k);
    }
  }

  /** When every cell of row y emits exactly k elements, the row holds x * k. */
  lemma {:induction false} RowUniformLength<T>(cell: (nat, nat) -> seq<T>, k: nat, y: nat, x: nat)
    requires forall c: nat :: c < x ==> |cell(y, c)| == k
    ensures |Row(cell, y, x)| == x * k
  {
    if x > 0 {
      RowUniformLength(cell, k, y, x - 1);
      StepProduct(x - 1, k);
    }
  }

  /** When every visited cell emits exactly k elements, y rows of n cells
      hold y * (n * k). */
  lemma {:induction false} RowsUniformLength<T>(cell: (nat, nat) -> seq<T>, k: nat, n: nat, y: nat)
    requires forall r: nat, c: nat :: r < y && c < n ==> |cell(r, c)| == k
    ensures |Rows(cell, n, y)| == y * (n * k)
  {
    if y > 0 {
      RowsUniformLength(cell, k, n, y - 1);
      RowUniformLength(cell, k, y - 1, n);
      StepProduct(y - 1, n * k);
    }
  }

  /** When every cell of row y emits exactly k elements, the block of cell
      (y, i) is the k elements from position i * k. */
  lemma {:induction false} RowAt<T>(cell: (nat, nat) -> seq<T>, k: nat, y: nat, x: nat, i: nat)
    requires forall c: nat :: c < x ==> |cell(y, c)| == k
    requires i < x
    ensures 0 <= i * k && i * k + k <= |Row(cell, y, x)|
    ensures Row(cell, y, x)[i * k .. i * k + k] == cell(y, i)
  {
    var prev, last := Row(cell, y, x - 1), cell(y, x - 1);
    RowUniformLength(cell, k, y, x - 1);
    StepProduct(i, k);
    var a := i * k;
    if i < x - 1 {
      RowAt(cell, k, y, x - 1, i);
      assert a + k <= |prev|;
      assert (prev + last)[a .. a + k] == prev[a .. a + k];
    } else {
      assert a == |prev|;
      assert (prev + last)[a .. a + k] == last;
    }
  }

  /** When every visited cell emits exactly k elements, the block of cell
      (j, i) is the k elements from position (j * n + i) * k: the scan lays
      the cells out row-major. */
  lemma {:induction false} RowsAt<T>(cell: (nat, nat) -> seq<T>, k: nat, n: nat, y: nat, j: nat, i: nat)
    requires forall r: nat, c: nat :: r < y && c < n ==> |cell(r, c)| == k
    requires j < y && i < n
    ensures 0 <= (j * n + i) * k && (j * n + i) * k + k <= |Rows(cell, n, y)|
    ensures Rows(cell, n, y)[(j * n + i) * k .. (j * n + i) * k + k] == cell(j, i)
  {
    var prev := Rows(cell, n, y - 1);
    var row := Row(cell, y - 1, n);
    BlockOffset(j, n, i, k);
    var a := (j * n + i) * k;
    RowsUniformLength(cell, k, n, y - 1);
    RowUniformLength(cell, k, y - 1, n);
    if j < y - 1 {
      RowsAt(cell, k, n, y - 1, j, i);
      assert a + k <= |prev|;
      assert (prev + row)[a .. a + k] == prev[a .. a + k];
    } else {
      RowAt(cell, k, j, n, i);
      assert |prev| == j * (n * k);
      assert a == |prev| + i * k;
      assert (prev + row)[a .. a + k] == row[i * k .. i * k + k];
    }
  }

  lemma BlockOffset(j: nat, n: nat, i: nat, k: nat)
    ensures 0 <= j * (n * k) && 0 <= i * k
    ensures (j * n + i) * k == j * (n * k) + i * k
  {
    assert (j * n + i) * k == j * n * k + i * k;
  }

  /** Nothing is counted exactly when no visited cell is marked. */
  lemma {:induction false} RowTallyZero(mark: (nat, nat) -> bool, y: nat, x: nat)
    ensures RowTally(mark, y, x) == 0 <==> forall i: nat :: i < x ==> !mark(y, i)
  {
    if x > 0 {
      RowTallyZero(mark, y, x - 1);
    }
  }

  lemma {:induction false} TallyZero(mark: (nat, nat) -> bool, n: nat, y: nat)
    ensures Tally(mark, n, y) == 0 <==> forall j: nat, i: nat :: j < y && i < n ==> !mark(j, i)
  {
    if y > 0 {
      TallyZero(mark, n, y - 1);
      RowTallyZero(mark, y - 1, n);
    }
  }
}
