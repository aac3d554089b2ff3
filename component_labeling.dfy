/** Raster-scan component labelling of a binary image: one row-major pass in
    which every foreground pixel takes the largest label among a fixed set of
    already-visible neighbours, or a fresh label from a counter when all of
    them are 0. The parallel variant runs the same pass over one band of rows
    per rank. */
module ComponentLabeling {
  import opened TaskData

  /** 2^64: `size_t` arithmetic is taken modulo this. */
  const SizeMod: nat := 0x1_0000_0000_0000_0000

  /** The bound on an element count held in `inputs_count` (`uint32_t`). */
  const CountBound: nat := 0x1_0000_0000

  /** `row + dr` and `col + dc` computed in `size_t`, that is modulo 2^64,
      for values in (-2^64, 2^64): a negative value wraps to 2^64 plus it, so
      -1 becomes 2^64 - 1. */
  function SizeT(x: int): nat
    requires -(SizeMod as int) < x < SizeMod
  {
    if x < 0 then x + SizeMod else x
  }

  /** The explicit wrap is arithmetic modulo 2^64. */
  lemma SizeTIsModulo(x: int)
    requires -(SizeMod as int) < x < SizeMod
    ensures SizeT(x) == x % SizeMod
  {
  }

  /** The number of (dr, dc) pairs the nested loops over {-1, 0, 1} visit. */
  const OffsetCount: nat := 9

  /** The k-th (dr, dc) pair that the nested loops over {-1, 0, 1} visit,
      with dc running fastest. */
  function Offset(k: nat): (int, int)
  {
    if k < 3 then (-1, k - 1) else if k < 6 then (0, k - 4) else (1, k - 7)
  }

  function Max(a: nat, b: nat): nat
  {
    if a >= b then a else b
  }

  /** The label stored at linear index i; 0 outside the array. */
  function At(labels: seq<nat>, i: int): nat
  {
    if 0 <= i < |labels| then labels[i] else 0
  }

  /** The image, its shape and the band of rows [lo, hi) one pass works on.
      The sequential pass is the band [0, rows). */
  datatype Band = Band(img: seq<Byte>, rows: nat, cols: nat, lo: nat, hi: nat)
  {
    ghost predicate Valid()
    {
      |img| == RowStart(cols, rows) && lo <= hi <= rows && rows < CountBound && cols < CountBound
    }
  }

  /** The state of the pass: the label array and the counter `label`. */
  datatype Scan = Scan(labels: seq<nat>, next: nat)

  /** `row * cols`, the linear index of the first pixel of a row, built up
      row by row. */
  function RowStart(cols: nat, row: nat): nat
  {
    if row == 0 then 0 else RowStart(cols, row - 1) + cols
  }

  lemma {:induction false} RowStartIsProduct(cols: nat, row: nat)
    ensures RowStart(cols, row) == row * cols
  {
    if row > 0 {
      RowStartIsProduct(cols, row - 1);
    }
  }

  /** A later row starts at least a full row further on. */
  lemma {:induction false} RowStartMono(cols: nat, r1: nat, r2: nat)
    requires r1 < r2
    ensures RowStart(cols, r1) + cols <= RowStart(cols, r2)
    decreases r2
  {
    if r1 + 1 < r2 {
      RowStartMono(cols, r1, r2 - 1);
    }
  }

  /** `row * cols + col` addresses a cell of the grid exactly when the row and
      the column are in range. */
  lemma IndexBound(row: nat, col: nat, rows: nat, cols: nat)
    requires row < rows && col < cols
    ensures RowStart(cols, row) + col < RowStart(cols, rows)
  {
    RowStartMono(cols, row, rows);
  }

  /** The label the offset loop reads at offset (dr, dc): nothing (0) for the
      skipped centre and corners, and nothing for a neighbour whose wrapped
      row is outside the band or whose wrapped column is outside the grid. */
  function Probe(labels: seq<nat>, b: Band, row: nat, col: nat, off: (int, int)): nat
    requires row < CountBound && col < CountBound && -1 <= off.0 <= 1 && -1 <= off.1 <= 1
  {
    var (dr, dc) := off;
    if (dr == 0 && dc == 0) || (dr != 0 && dc != 0) then 0
    else
      var nRow := SizeT(row + dr);
      var nCol := SizeT(col + dc);
      if b.lo <= nRow < b.hi && nCol < b.cols then At(labels, RowStart(b.cols, nRow) + nCol) else 0
  }

  /** The running `max_label` after the first k iterations of the offset loop. */
  function ProbeMax(labels: seq<nat>, b: Band, row: nat, col: nat, k: nat): nat
    requires row < CountBound && col < CountBound && k <= OffsetCount
  {
    if k == 0 then 0 else Max(ProbeMax(labels, b, row, col, k - 1), Probe(labels, b, row, col, Offset(k - 1)))
  }

  /** The label of the up neighbour of (row, col) when it lies in band b; 0 otherwise. */
  function Up(labels: seq<nat>, b: Band, row: nat, col: nat): nat
  {
    if b.lo < row then At(labels, RowStart(b.cols, row - 1) + col) else 0
  }

  /** The label of the left neighbour when it is in the grid; 0 otherwise. */
  function Left(labels: seq<nat>, b: Band, row: nat, col: nat): nat
  {
    if col > 0 then At(labels, RowStart(b.cols, row) + (col - 1)) else 0
  }

  /** The label of the right neighbour when it is in the grid; 0 otherwise. */
  function Right(labels: seq<nat>, b: Band, row: nat, col: nat): nat
  {
    if col + 1 < b.cols then At(labels, RowStart(b.cols, row) + (col + 1)) else 0
  }

  /** The label of the down neighbour when it lies in band b; 0 otherwise. */
  function Down(labels: seq<nat>, b: Band, row: nat, col: nat): nat
  {
    if row + 1 < b.hi then At(labels, RowStart(b.cols, row + 1) + col) else 0
  }

  /** The largest label among the up, left, right and down neighbours of
      (row, col) that lie in band b; 0 when there is none. */
  function OrthogonalMax(labels: seq<nat>, b: Band, row: nat, col: nat): nat
  {
    Max(Max(Max(Up(labels, b, row, col), Left(labels, b, row, col)), Right(labels, b, row, col)), Down(labels, b, row, col))
  }

  /** `max_label` for the pixel (row, col) of band b, stated on the grid: the
      largest label among the orthogonal neighbours in the band, the
      (row-1, col-1) neighbour when it exists and the (row+1, col+1)
      neighbour when it is in the grid; 0 when there is none. */
  function AroundMax(labels: seq<nat>, b: Band, row: nat, col: nat): nat
  {
    var upLeft := if row > 0 && col > 0 then At(labels, RowStart(b.cols, row - 1) + (col - 1)) else 0;
    var downRight := if row + 1 < b.rows && col + 1 < b.cols then At(labels, RowStart(b.cols, row + 1) + (col + 1)) else 0;
    Max(Max(OrthogonalMax(labels, b, row, col), upLeft), downRight)
  }

  /** The neighbours a pixel inspects, stated on the grid: the four
      orthogonal neighbours that lie in the band, the up-left neighbour and
      the down-right neighbour that lie in the grid. */
  ghost predicate Inspects(b: Band, row: nat, col: nat, nr: nat, nc: nat)
  {
    || (b.lo <= nr < b.hi && nc < b.cols &&
        ((nr == row && (nc == col - 1 || nc == col + 1)) || (nc == col && (nr == row - 1 || nr == row + 1))))
    || (row > 0 && col > 0 && nr == row - 1 && nc == col - 1)
    || (row + 1 < b.rows && col + 1 < b.cols && nr == row + 1 && nc == col + 1)
  }

  /** The offset loop skips the centre and the corners: its result is the
      maximum of the four orthogonal probes. */
  lemma ProbeMaxOffsets(labels: seq<nat>, b: Band, row: nat, col: nat)
    requires row < CountBound && col < CountBound
    ensures ProbeMax(labels, b, row, col, OffsetCount)
         == Max(Max(Max(Probe(labels, b, row, col, (-1, 0)), Probe(labels, b, row, col, (0, -1))),
                    Probe(labels, b, row, col, (0, 1))), Probe(labels, b, row, col, (1, 0)))
  {
    var up := Probe(labels, b, row, col, (-1, 0));
    var left := Probe(labels, b, row, col, (0, -1));
    var right := Probe(labels, b, row, col, (0, 1));
    var down := Probe(labels, b, row, col, (1, 0));
    assert ProbeMax(labels, b, row, col, 1) == 0;
    assert ProbeMax(labels, b, row, col, 2) == up;
    assert ProbeMax(labels, b, row, col, 3) == up;
    assert ProbeMax(labels, b, row, col, 4) == Max(up, left);
    assert ProbeMax(labels, b, row, col, 5) == Max(up, left);
    assert ProbeMax(labels, b, row, col, 6) == Max(Max(up, left), right);
    assert ProbeMax(labels, b, row, col, 7) == Max(Max(up, left), right);
    assert ProbeMax(labels, b, row, col, 8) == Max(Max(Max(up, left), right), down);
  }

  /** One orthogonal probe: it reads the neighbour (row + dr, col + dc)
      exactly when that neighbour's row is in the band and its column in the
      grid; the wrapped value of a step below 0 fails both checks. */
  lemma ProbeAt(labels: seq<nat>, b: Band, row: nat, col: nat, dr: int, dc: int)
    requires b.Valid() && b.lo <= row < b.hi && col < b.cols
    requires -1 <= dr <= 1 && -1 <= dc <= 1 && (dr == 0) != (dc == 0)
    ensures Probe(labels, b, row, col, (dr, dc))
         == if b.lo <= row + dr < b.hi && 0 <= col + dc < b.cols then At(labels, RowStart(b.cols, row + dr) + (col + dc)) else 0
  {
  }

  lemma ProbeUp(labels: seq<nat>, b: Band, row: nat, col: nat)
    requires b.Valid() && b.lo <= row < b.hi && col < b.cols
    ensures Probe(labels, b, row, col, (-1, 0)) == Up(labels, b, row, col)
  {
    ProbeAt(labels, b, row, col, -1, 0);
  }
  lemma ProbeLeft(labels: seq<nat>, b: Band, row: nat, col: nat)
    requires b.Valid() && b.lo <= row < b.hi && col < b.cols
    ensures Probe(labels, b, row, col, (0, -1)) == Left(labels, b, row, col)
  {
    ProbeAt(labels, b, row, col, 0, -1);
  }
  lemma ProbeRight(labels: seq<nat>, b: Band, row: nat, col: nat)
    requires b.Valid() && b.lo <= row < b.hi && col < b.cols
    ensures Probe(labels, b, row, col, (0, 1)) == Right(labels, b, row, col)
  {
    ProbeAt(labels, b, row, col, 0, 1);
  }
  lemma ProbeDown(labels: seq<nat>, b: Band, row: nat, col: nat)
    requires b.Valid() && b.lo <= row < b.hi && col < b.cols
    ensures Probe(labels, b, row, col, (1, 0)) == Down(labels, b, row, col)
  {
    ProbeAt(labels, b, row, col, 1, 0);
  }

  lemma OffsetsOrthogonal(labels: seq<nat>, b: Band, row: nat, col: nat)
    requires b.Valid() && b.lo <= row < b.hi && col < b.cols
    ensures ProbeMax(labels, b, row, col, OffsetCount) == OrthogonalMax(labels, b, row, col)
  {
    ProbeUp(labels, b, row, col);
    ProbeLeft(labels, b, row, col);
    ProbeRight(labels, b, row, col);
    ProbeDown(labels, b, row, col);
    ProbeMaxOffsets(labels, b, row, col);
  }

  /** Every inspected neighbour is a cell of the grid. */
  lemma InspectedInGrid(b: Band, row: nat, col: nat, nr: nat, nc: nat)
    requires b.Valid() && b.lo <= row < b.hi && col < b.cols && Inspects(b, row, col, nr, nc)
    ensures 0 <= RowStart(b.cols, nr) + nc < |b.img|
  {
    IndexBound(nr, nc, b.rows, b.cols);
  }

  /** `max_label` bounds the label of every inspected neighbour. */
  lemma AroundMaxIsUpperBound(labels: seq<nat>, b: Band, row: nat, col: nat, nr: nat, nc: nat)
    requires b.Valid() && b.lo <= row < b.hi && col < b.cols && Inspects(b, row, col, nr, nc)
    ensures At(labels, RowStart(b.cols, nr) + nc) <= AroundMax(labels, b, row, col)
  {
  }

  /** A non-zero `max_label` is the label of some inspected neighbour. */
  lemma AroundMaxAttained(labels: seq<nat>, b: Band, row: nat, col: nat)
    requires b.Valid() && b.lo <= row < b.hi && col < b.cols && AroundMax(labels, b, row, col) != 0
    ensures exists nr: nat, nc: nat :: Inspects(b, row, col, nr, nc) && At(labels, RowStart(b.cols, nr) + nc) == AroundMax(labels, b, row, col)
  {
    var m := AroundMax(labels, b, row, col);
    if b.lo < row && m == At(labels, RowStart(b.cols, row - 1) + col) {
      assert Inspects(b, row, col, row - 1, col);
    } else if col > 0 && m == At(labels, RowStart(b.cols, row) + (col - 1)) {
      assert Inspects(b, row, col, row, col - 1);
    } else if col + 1 < b.cols && m == At(labels, RowStart(b.cols, row) + (col + 1)) {
      assert Inspects(b, row, col, row, col + 1);
    } else if row + 1 < b.hi && m == At(labels, RowStart(b.cols, row + 1) + col) {
      assert Inspects(b, row, col, row + 1, col);
    } else if row > 0 && col > 0 && m == At(labels, RowStart(b.cols, row - 1) + (col - 1)) {
      assert Inspects(b, row, col, row - 1, col - 1);
    } else {
      assert Inspects(b, row, col, row + 1, col + 1);
    }
  }

  /** When every label is below a bound, so is `max_label`. */
  lemma AroundMaxBelow(labels: seq<nat>, b: Band, row: nat, col: nat, bound: nat)
    requires bound >= 1 && forall i :: 0 <= i < |labels| ==> labels[i] < bound
    ensures AroundMax(labels, b, row, col) < bound
  {
  }

  /** The pass's work on pixel (row, col): a background pixel is skipped; a
      foreground pixel takes `max_label`, or the counter, which then
      advances, when `max_label` is 0. */
  function Step(b: Band, s: Scan, row: nat, col: nat): (t: Scan)
    requires b.Valid() && |s.labels| == |b.img| && b.lo <= row < b.hi && col < b.cols
    ensures |t.labels| == |s.labels|
  {
    IndexBound(row, col, b.rows, b.cols);
    var i := RowStart(b.cols, row) + col;
    if b.img[i] == 0 then s
    else
      var m := AroundMax(s.labels, b, row, col);
      if m == 0 then Scan(s.labels[i := s.next], s.next + 1) else Scan(s.labels[i := m], s.next)
  }

  /** The effect of one step: only the visited pixel's label may change; a
      background pixel changes nothing; a foreground pixel takes `max_label`,
      or the counter when that is 0, and only then does the counter advance. */
  lemma StepFacts(b: Band, s: Scan, row: nat, col: nat)
    requires b.Valid() && |s.labels| == |b.img| && b.lo <= row < b.hi && col < b.cols
    ensures RowStart(b.cols, row) + col < |s.labels|
    ensures forall i :: 0 <= i < |s.labels| && i != RowStart(b.cols, row) + col ==>
              Step(b, s, row, col).labels[i] == s.labels[i]
    ensures b.img[RowStart(b.cols, row) + col] == 0 ==> Step(b, s, row, col) == s
    ensures b.img[RowStart(b.cols, row) + col] != 0 ==>
              Step(b, s, row, col).labels[RowStart(b.cols, row) + col]
              == if AroundMax(s.labels, b, row, col) == 0 then s.next else AroundMax(s.labels, b, row, col)
    ensures Step(b, s, row, col).next
            == if b.img[RowStart(b.cols, row) + col] != 0 && AroundMax(s.labels, b, row, col) == 0 then s.next + 1 else s.next
  {
    IndexBound(row, col, b.rows, b.cols);
  }

  /** The state of the pass over band b from s0 just before it visits pixel
      (row, col); `ScanTo(b, s0, b.hi, 0)` is the state after the band. */
  function ScanTo(b: Band, s0: Scan, row: nat, col: nat): (s: Scan)
    requires b.Valid() && |s0.labels| == |b.img|
    requires b.lo <= row <= b.hi && col <= b.cols && (row < b.hi || col == 0)
    ensures |s.labels| == |s0.labels|
    decreases row - b.lo, col
  {
    if col > 0 then Step(b, ScanTo(b, s0, row, col - 1), row, col - 1)
    else if row > b.lo then ScanTo(b, s0, row - 1, b.cols)
    else s0
  }

  /** The number of foreground pixels at linear indices [from, to). */
  function Foreground(img: seq<Byte>, from: nat, to: nat): nat
    decreases to
  {
    if to <= from then 0
    else Foreground(img, from, to - 1) + (if to - 1 < |img| && img[to - 1] != 0 then 1 else 0)
  }

  /** The pixels visited before (row, col) are the linear indices
      [lo * cols, row * cols + col), which lie inside the grid. */
  lemma VisitedRange(b: Band, row: nat, col: nat)
    requires b.Valid() && b.lo <= row <= b.hi && col <= b.cols && (row < b.hi || col == 0)
    ensures RowStart(b.cols, b.lo) <= RowStart(b.cols, row) + col <= |b.img|
  {
    if b.lo < row {
      RowStartMono(b.cols, b.lo, row);
    }
    if row < b.rows {
      RowStartMono(b.cols, row, b.rows);
    }
  }

  /** A pass writes only the label of the pixel it visits: every cell outside
      the visited part of the band keeps its label. */
  lemma {:induction false} ScanKeepsUnvisited(b: Band, s0: Scan, row: nat, col: nat)
    requires b.Valid() && |s0.labels| == |b.img|
    requires b.lo <= row <= b.hi && col <= b.cols && (row < b.hi || col == 0)
    ensures forall i :: 0 <= i < |s0.labels| && !(RowStart(b.cols, b.lo) <= i < RowStart(b.cols, row) + col) ==>
              ScanTo(b, s0, row, col).labels[i] == s0.labels[i]
    decreases row - b.lo, col
  {
    if col > 0 {
      ScanKeepsUnvisited(b, s0, row, col - 1);
      StepFacts(b, ScanTo(b, s0, row, col - 1), row, col - 1);
      VisitedRange(b, row, col - 1);
    } else if row > b.lo {
      ScanKeepsUnvisited(b, s0, row - 1, b.cols);
    }
  }

  /** Background pixels keep their label. */
  lemma {:induction false} ScanKeepsBackground(b: Band, s0: Scan, row: nat, col: nat)
    requires b.Valid() && |s0.labels| == |b.img|
    requires b.lo <= row <= b.hi && col <= b.cols && (row < b.hi || col == 0)
    ensures forall i :: 0 <= i < |s0.labels| && b.img[i] == 0 ==> ScanTo(b, s0, row, col).labels[i] == s0.labels[i]
    decreases row - b.lo, col
  {
    if col > 0 {
      ScanKeepsBackground(b, s0, row, col - 1);
      StepFacts(b, ScanTo(b, s0, row, col - 1), row, col - 1);
    } else if row > b.lo {
      ScanKeepsBackground(b, s0, row - 1, b.cols);
    }
  }

  /** With the counter starting at 1 or above, every visited foreground pixel
      ends with a label of at least 1, and the counter never goes down. */
  lemma {:induction false} ScanLabelsForeground(b: Band, s0: Scan, row: nat, col: nat)
    requires b.Valid() && |s0.labels| == |b.img| && s0.next >= 1
    requires b.lo <= row <= b.hi && col <= b.cols && (row < b.hi || col == 0)
    ensures ScanTo(b, s0, row, col).next >= s0.next
    ensures forall i :: RowStart(b.cols, b.lo) <= i < RowStart(b.cols, row) + col && 0 <= i < |b.img| && b.img[i] != 0 ==>
              ScanTo(b, s0, row, col).labels[i] >= 1
    decreases row - b.lo, col
  {
    if col > 0 {
      ScanLabelsForeground(b, s0, row, col - 1);
      StepLabelsForeground(b, ScanTo(b, s0, row, col - 1), row, col - 1);
    } else if row > b.lo {
      ScanLabelsForeground(b, s0, row - 1, b.cols);
      assert ScanTo(b, s0, row, col) == ScanTo(b, s0, row - 1, b.cols);
    }
  }

  /** One step of `ScanLabelsForeground`: the visited pixel, when it is
      foreground, ends with a label of at least 1. */
  lemma StepLabelsForeground(b: Band, p: Scan, row: nat, col: nat)
    requires b.Valid() && |p.labels| == |b.img| && b.lo <= row < b.hi && col < b.cols && p.next >= 1
    requires forall i :: RowStart(b.cols, b.lo) <= i < RowStart(b.cols, row) + col && 0 <= i < |b.img| && b.img[i] != 0 ==>
               p.labels[i] >= 1
    ensures Step(b, p, row, col).next >= p.next
    ensures forall i :: RowStart(b.cols, b.lo) <= i < RowStart(b.cols, row) + col + 1 && 0 <= i < |b.img| && b.img[i] != 0 ==>
              Step(b, p, row, col).labels[i] >= 1
  {
    StepFacts(b, p, row, col);
    var t := Step(b, p, row, col);
    KeepsLabelled(b.img, p.labels, t.labels, RowStart(b.cols, b.lo), RowStart(b.cols, row) + col);
  }

  /** Labels that differ from `before` at most at index j, which is labelled
      when it is foreground, keep every foreground index in [from, j + 1)
      labelled once [from, j) was. */
  lemma KeepsLabelled(img: seq<Byte>, before: seq<nat>, after: seq<nat>, from: nat, j: nat)
    requires |before| == |after| == |img| && j < |img|
    requires forall i :: 0 <= i < |after| && i != j ==> after[i] == before[i]
    requires img[j] != 0 ==> after[j] >= 1
    requires forall i :: from <= i < j && 0 <= i < |img| && img[i] != 0 ==> before[i] >= 1
    ensures forall i :: from <= i < j + 1 && 0 <= i < |img| && img[i] != 0 ==> after[i] >= 1
  {
  }

  /** Fresh labels are issued only at foreground pixels: the counter advances
      by at most the number of foreground pixels visited. */
  lemma {:induction false} ScanFreshBound(b: Band, s0: Scan, row: nat, col: nat)
    requires b.Valid() && |s0.labels| == |b.img|
    requires b.lo <= row <= b.hi && col <= b.cols && (row < b.hi || col == 0)
    ensures ScanTo(b, s0, row, col).next <= s0.next + Foreground(b.img, RowStart(b.cols, b.lo), RowStart(b.cols, row) + col)
    decreases row - b.lo, col
  {
    var from := RowStart(b.cols, b.lo);
    if col > 0 {
      var p := ScanTo(b, s0, row, col - 1);
      var k := RowStart(b.cols, row) + (col - 1);
      ScanFreshBound(b, s0, row, col - 1);
      VisitedRange(b, row, col - 1);
      StepFacts(b, p, row, col - 1);
      assert Foreground(b.img, from, k + 1) == Foreground(b.img, from, k) + (if b.img[k] != 0 then 1 else 0);
    } else if row > b.lo {
      ScanFreshBound(b, s0, row - 1, b.cols);
      assert ScanTo(b, s0, row, col) == ScanTo(b, s0, row - 1, b.cols);
      assert RowStart(b.cols, row) + col == RowStart(b.cols, row - 1) + b.cols;
    }
  }

  /** When every initial label is below the counter (as with all-zero labels
      and the counter at 1), every label stays below the counter: a pixel
      copies a label already issued or takes a fresh one. */
  lemma {:induction false} ScanLabelsBelowCounter(b: Band, s0: Scan, row: nat, col: nat)
    requires b.Valid() && |s0.labels| == |b.img| && s0.next >= 1
    requires forall i :: 0 <= i < |s0.labels| ==> s0.labels[i] < s0.next
    requires b.lo <= row <= b.hi && col <= b.cols && (row < b.hi || col == 0)
    ensures ScanTo(b, s0, row, col).next >= 1
    ensures forall i :: 0 <= i < |s0.labels| ==> ScanTo(b, s0, row, col).labels[i] < ScanTo(b, s0, row, col).next
    decreases row - b.lo, col
  {
    if col > 0 {
      var s := ScanTo(b, s0, row, col - 1);
      ScanLabelsBelowCounter(b, s0, row, col - 1);
      AroundMaxBelow(s.labels, b, row, col - 1, s.next);
      StepFacts(b, s, row, col - 1);
    } else if row > b.lo {
      ScanLabelsBelowCounter(b, s0, row - 1, b.cols);
    }
  }

  /** Some pixel of band b visited before (row, col) holds label l. */
  ghost predicate Holds(labels: seq<nat>, b: Band, row: nat, col: nat, l: nat)
  {
    exists i :: RowStart(b.cols, b.lo) <= i < RowStart(b.cols, row) + col && 0 <= i < |labels| && labels[i] == l
  }

  /** Every label the counter has issued is held by some visited pixel: a
      fresh label is written once and no later step overwrites it. */
  lemma {:induction false} ScanIssuedPresent(b: Band, s0: Scan, row: nat, col: nat)
    requires b.Valid() && |s0.labels| == |b.img|
    requires b.lo <= row <= b.hi && col <= b.cols && (row < b.hi || col == 0)
    ensures forall l :: s0.next <= l < ScanTo(b, s0, row, col).next ==> Holds(ScanTo(b, s0, row, col).labels, b, row, col, l)
    decreases row - b.lo, col
  {
    var s := ScanTo(b, s0, row, col);
    if col > 0 {
      var p := ScanTo(b, s0, row, col - 1);
      ScanIssuedPresent(b, s0, row, col - 1);
      StepFacts(b, p, row, col - 1);
      var k := RowStart(b.cols, row) + (col - 1);
      forall l | s0.next <= l < s.next
        ensures Holds(s.labels, b, row, col, l)
      {
        if l < p.next {
          assert Holds(p.labels, b, row, col - 1, l);
          var i :| RowStart(b.cols, b.lo) <= i < RowStart(b.cols, row) + (col - 1) && 0 <= i < |p.labels| && p.labels[i] == l;
          assert s.labels[i] == l;
        } else {
          VisitedRange(b, row, col - 1);
          assert s.labels[k] == l;
        }
      }
    } else if row > b.lo {
      ScanIssuedPresent(b, s0, row - 1, b.cols);
      assert s == ScanTo(b, s0, row - 1, b.cols);
      forall l | s0.next <= l < s.next
        ensures Holds(s.labels, b, row, col, l)
      {
        assert Holds(s.labels, b, row - 1, b.cols, l);
      }
    }
  }

  /** The pair (dr, dc) is visited as number 3 * (dr + 1) + (dc + 1). */
  lemma OffsetOrder(dr: int, dc: int)
    requires -1 <= dr <= 1 && -1 <= dc <= 1
    ensures Offset(3 * (dr + 1) + (dc + 1)) == (dr, dc)
  {
    if dr == -1 {
      assert dc == -1 || dc == 0 || dc == 1;
    } else if dr == 0 {
      assert dc == -1 || dc == 0 || dc == 1;
    } else {
      assert dc == -1 || dc == 0 || dc == 1;
    }
  }

  /** One iteration of the `dr`/`dc` loop: the skip test for the centre and
      the corners, then the wrapped bounds checks and the running maximum. */
  method OffsetStep(labels: seq<nat>, b: Band, row: nat, col: nat, dr: int, dc: int, m: nat) returns (m': nat)
    requires b.Valid() && |labels| == |b.img| && b.lo <= row < b.hi && col < b.cols
    requires -1 <= dr <= 1 && -1 <= dc <= 1
    ensures m' == Max(m, Probe(labels, b, row, col, (dr, dc)))
  {
    m' := m;
    if (dr == 0 && dc == 0) || (dr != 0 && dc != 0) {
      return;
    }
    var nRow := SizeT(row + dr);
    var nCol := SizeT(col + dc);
    if b.lo <= nRow < b.hi && nCol < b.cols {
      IndexBound(nRow, nCol, b.rows, b.cols);
      m' := Max(m, labels[RowStart(b.cols, nRow) + nCol]);
    }
  }

  /** The nested `dr`/`dc` loop of the source, with its skip test and its
      wrapped bounds checks: it leaves in m the largest label among the
      orthogonal neighbours that lie in the band. */
  method OffsetLoopMax(labels: seq<nat>, b: Band, row: nat, col: nat) returns (m: nat)
    requires b.Valid() && |labels| == |b.img| && b.lo <= row < b.hi && col < b.cols
    ensures m == OrthogonalMax(labels, b, row, col)
  {
    m := 0;
    for dr := -1 to 2
      invariant m == ProbeMax(labels, b, row, col, 3 * (dr + 1))
    {
      for dc := -1 to 2
        invariant m == ProbeMax(labels, b, row, col, 3 * (dr + 1) + (dc + 1))
      {
        OffsetOrder(dr, dc);
        m := OffsetStep(labels, b, row, col, dr, dc, m);
      }
    }
    OffsetsOrthogonal(labels, b, row, col);
  }

  /** `max_label` for pixel (row, col), computed as the source does: the
      offset loop, then the two diagonal neighbours, yields the largest label
      among the inspected neighbours. */
  method NeighbourMax(labels: seq<nat>, b: Band, row: nat, col: nat) returns (m: nat)
    requires b.Valid() && |labels| == |b.img| && b.lo <= row < b.hi && col < b.cols
    ensures m == AroundMax(labels, b, row, col)
  {
    m := OffsetLoopMax(labels, b, row, col);
    if row > 0 && col > 0 {
      IndexBound(row - 1, col - 1, b.rows, b.cols);
      m := Max(m, labels[RowStart(b.cols, row - 1) + (col - 1)]);
    }
    if row + 1 < b.rows && col + 1 < b.cols {
      IndexBound(row + 1, col + 1, b.rows, b.cols);
      m := Max(m, labels[RowStart(b.cols, row + 1) + (col + 1)]);
    }
  }

  /** The loop body for pixel (row, col), in place on the label array. */
  method LabelPixel(b: Band, labels: array<nat>, row: nat, col: nat, next: nat) returns (next': nat)
    requires b.Valid() && labels.Length == |b.img| && b.lo <= row < b.hi && col < b.cols
    modifies labels
    ensures Scan(labels[..], next') == Step(b, Scan(old(labels[..]), next), row, col)
  {
    IndexBound(row, col, b.rows, b.cols);
    var i := RowStart(b.cols, row) + col;
    next' := next;
    if b.img[i] != 0 {
      var m := NeighbourMax(labels[..], b, row, col);
      if m == 0 {
        labels[i] := next;
        next' := next + 1;
      } else {
        labels[i] := m;
      }
    }
  }

  /** The labelling pass over band [lo, hi), in place on the label array,
      with the counter starting at 1; `next` is the counter after the pass. */
  method LabelBand(b: Band, labels: array<nat>) returns (next: nat)
    requires b.Valid() && labels.Length == |b.img|
    modifies labels
    ensures Scan(labels[..], next) == ScanTo(b, Scan(old(labels[..]), 1), b.hi, 0)
  {
    ghost var labels0 := labels[..];
    next := 1;
    var row := b.lo;
    while row < b.hi
      invariant b.lo <= row <= b.hi
      invariant Scan(labels[..], next) == ScanTo(b, Scan(labels0, 1), row, 0)
    {
      var col := 0;
      while col < b.cols
        invariant col <= b.cols
        invariant Scan(labels[..], next) == ScanTo(b, Scan(labels0, 1), row, col)
      {
        next := LabelPixel(b, labels, row, col, next);
        col := col + 1;
      }
      row := row + 1;
    }
  }

  /** The state after a pass over band b that starts from all-zero labels. */
  function Fresh(b: Band): (s: Scan)
    requires b.Valid()
    ensures |s.labels| == |b.img|
  {
    ScanTo(b, Scan(Zeros(|b.img|), 1), b.hi, 0)
  }

  /** The pass over a band with every label 0 at the start, as after
      `pre_processing` on a fresh task: background pixels keep label 0,
      foreground pixels get labels in [1, next), every label in [1, next) is
      used, and next - 1 is at most the number of foreground pixels. */
  lemma FreshPass(b: Band)
    requires b.Valid()
    ensures forall i :: 0 <= i < |b.img| && b.img[i] == 0 ==> Fresh(b).labels[i] == 0
    ensures forall i :: 0 <= i < |b.img| && RowStart(b.cols, b.lo) <= i < RowStart(b.cols, b.hi) && b.img[i] != 0 ==>
              1 <= Fresh(b).labels[i] < Fresh(b).next
    ensures forall i :: 0 <= i < |b.img| && !(RowStart(b.cols, b.lo) <= i < RowStart(b.cols, b.hi)) ==> Fresh(b).labels[i] == 0
    ensures forall l :: 1 <= l < Fresh(b).next ==> Holds(Fresh(b).labels, b, b.hi, 0, l)
    ensures Fresh(b).next - 1 <= Foreground(b.img, RowStart(b.cols, b.lo), RowStart(b.cols, b.hi))
  {
    var s0 := Scan(Zeros(|b.img|), 1);
    VisitedRange(b, b.hi, 0);
    ScanKeepsBackground(b, s0, b.hi, 0);
    ScanKeepsUnvisited(b, s0, b.hi, 0);
    ScanLabelsForeground(b, s0, b.hi, 0);
    ScanLabelsBelowCounter(b, s0, b.hi, 0);
    ScanIssuedPresent(b, s0, b.hi, 0);
    ScanFreshBound(b, s0, b.hi, 0);
  }

  /** n zeros. */
  function Zeros(n: nat): (z: seq<nat>)
    ensures |z| == n && forall i :: 0 <= i < n ==> z[i] == 0
  {
    if n == 0 then [] else Zeros(n - 1) + [0]
  }

  /** `std::vector::resize(n, 0)`: the first min(|s|, n) elements are kept
      and any new elements are 0. */
  function Resize(s: seq<nat>, n: nat): (r: seq<nat>)
    ensures |r| == n
    ensures forall i :: 0 <= i < n ==> r[i] == if i < |s| then s[i] else 0
  {
    if n <= |s| then s[..n] else s + Zeros(n - |s|)
  }

  /** `validation`: the task needs at least one input and one output. */
  function Validation(td: TaskShape): (ok: bool)
    ensures ok <==> td.inputs > 0 && td.outputs > 0
  {
    !(td.inputs == 0) && !(td.outputs == 0)
  }

  /** The first row of a rank's band: `rows / P * rank`. */
  function BandStart(rows: nat, p: nat, rank: nat): nat
    requires p >= 1
  {
    rows / p * rank
  }

  /** The end of a rank's band: the last rank's band runs to `rows`. */
  function BandEnd(rows: nat, p: nat, rank: nat): nat
    requires p >= 1
  {
    if rank == p - 1 then rows else BandStart(rows, p, rank) + rows / p
  }

  /** The band of rank `rank` among p ranks over an image. */
  function ParBand(img: seq<Byte>, rows: nat, cols: nat, p: nat, rank: nat): (b: Band)
    requires rank < p && |img| == RowStart(cols, rows) && rows < CountBound && cols < CountBound
    ensures b.Valid() && b.img == img && b.rows == rows && b.cols == cols
    ensures b.lo == BandStart(rows, p, rank) && b.hi == BandEnd(rows, p, rank)
  {
    BandsTile(rows, p, rank);
    Band(img, rows, cols, BandStart(rows, p, rank), BandEnd(rows, p, rank))
  }

  lemma MulMono(a: nat, b: nat, c: nat)
    requires a <= b
    ensures a * c <= b * c
  {
  }

  /** Each band lies inside [0, rows), consecutive bands meet, the first
      starts at 0, the last ends at rows and absorbs the rows % P left over. */
  lemma BandsTile(rows: nat, p: nat, rank: nat)
    requires p >= 1 && rank < p
    ensures BandStart(rows, p, rank) <= BandEnd(rows, p, rank) <= rows
    ensures rank + 1 < p ==> BandEnd(rows, p, rank) == BandStart(rows, p, rank + 1)
    ensures BandStart(rows, p, 0) == 0 && BandEnd(rows, p, p - 1) == rows
    ensures rank == p - 1 ==> BandEnd(rows, p, rank) - BandStart(rows, p, rank) == rows / p + rows % p
    ensures rank < p - 1 ==> BandEnd(rows, p, rank) - BandStart(rows, p, rank) == rows / p
  {
    var q := rows / p;
    assert rows == q * p + rows % p;
    MulMono(rank, p - 1, q);
    MulMono(rank + 1, p, q);
    assert q * (p - 1) + q == q * p;
  }

  /** A lower rank's band ends before a higher rank's band starts. */
  lemma {:induction false} BandsDisjoint(rows: nat, p: nat, r1: nat, r2: nat)
    requires r1 < r2 < p
    ensures BandEnd(rows, p, r1) <= BandStart(rows, p, r2)
    decreases r2 - r1
  {
    BandsTile(rows, p, r1);
    if r1 + 1 < r2 {
      BandsTile(rows, p, r1 + 1);
      BandsDisjoint(rows, p, r1 + 1, r2);
    }
  }

  /** The rank at or below k whose band holds a row that lies below the end
      of band k. */
  function OwnerFrom(rows: nat, p: nat, row: nat, k: nat): (o: nat)
    requires k < p && row < BandEnd(rows, p, k)
    ensures o <= k && BandStart(rows, p, o) <= row < BandEnd(rows, p, o)
    decreases k
  {
    BandsTile(rows, p, k);
    if k == 0 || BandStart(rows, p, k) <= row then k
    else
      BandsTile(rows, p, k - 1);
      OwnerFrom(rows, p, row, k - 1)
  }

  /** The rank whose band holds a row of the image. */
  function Owner(rows: nat, p: nat, row: nat): (o: nat)
    requires p >= 1 && row < rows
    ensures o < p
  {
    OwnerFrom(rows, p, row, p - 1)
  }

  /** The bands partition the rows: a row lies in a rank's band exactly when
      that rank is its owner, so every row is in exactly one band. */
  lemma BandOwner(rows: nat, p: nat, rank: nat, row: nat)
    requires rank < p && row < rows
    ensures BandStart(rows, p, rank) <= row < BandEnd(rows, p, rank) <==> rank == Owner(rows, p, row)
  {
    var o := Owner(rows, p, row);
    if rank < o {
      BandsDisjoint(rows, p, rank, o);
    } else if o < rank {
      BandsDisjoint(rows, p, o, rank);
    }
  }

  /** `std::vector::resize(n, 0)` on the label array: a new array of n
      cells holding the old labels where they exist and 0 after them. */
  method ResizeLabels(labels: array<nat>, n: nat) returns (resized: array<nat>)
    ensures fresh(resized)
    ensures resized[..] == Resize(labels[..], n)
  {
    resized := new nat[n];
    for i := 0 to n
      invariant forall j :: 0 <= j < i ==> resized[j] == if j < labels.Length then labels[j] else 0
    {
      resized[i] := if i < labels.Length then labels[i] else 0;
    }
  }

  /** The sequential task: the image and its label array. */
  class ComponentLabelingSeq {
    var rows: nat
    var cols: nat
    var inputImage: seq<Byte>
    var labels: array<nat>

    ghost predicate Valid()
      reads this
    {
      |inputImage| == RowStart(cols, rows) == labels.Length && rows < CountBound && cols < CountBound
    }

    constructor ()
      ensures Valid() && rows == 0 && cols == 0 && inputImage == [] && labels.Length == 0
    {
      rows, cols, inputImage := 0, 0, [];
      labels := new nat[0];
    }

    /** `pre_processing`: the shape from `inputs_count`, the first rows*cols
        pixels of the input buffer, the label array resized to rows*cols with
        any new cells 0. */
    method PreProcessing(inputsCount: seq<nat>, buffer: seq<Byte>)
      requires |inputsCount| >= 2 && inputsCount[0] < CountBound && inputsCount[1] < CountBound
      requires inputsCount[0] * inputsCount[1] <= |buffer|
      modifies this
      ensures Valid() && fresh(labels)
      ensures rows == inputsCount[0] && cols == inputsCount[1]
      ensures inputImage == buffer[..rows * cols]
      ensures labels[..] == Resize(old(labels[..]), rows * cols)
    {
      rows := inputsCount[0];
      cols := inputsCount[1];
      RowStartIsProduct(cols, rows);
      inputImage := buffer[..rows * cols];
      labels := ResizeLabels(labels, rows * cols);
    }

    /** `run`: one pass over every row, in place on the label array. */
    method Run()
      requires Valid()
      modifies labels
      ensures labels[..] == ScanTo(Band(inputImage, rows, cols, 0, rows), Scan(old(labels[..]), 1), rows, 0).labels
    {
      var next := LabelBand(Band(inputImage, rows, cols, 0, rows), labels);
    }
  }

  /** The parallel task on one rank: the same state, and the band of rows
      this rank labels. */
  class ComponentLabelingPar {
    const rank: nat
    const worldSize: nat
    var rows: nat
    var cols: nat
    var inputImage: seq<Byte>
    var labels: array<nat>

    ghost predicate Valid()
      reads this
    {
      rank < worldSize &&
      |inputImage| == RowStart(cols, rows) == labels.Length && rows < CountBound && cols < CountBound
    }

    constructor (rank: nat, worldSize: nat)
      requires rank < worldSize
      ensures Valid() && this.rank == rank && this.worldSize == worldSize
      ensures rows == 0 && cols == 0 && inputImage == [] && labels.Length == 0
    {
      this.rank, this.worldSize := rank, worldSize;
      rows, cols, inputImage := 0, 0, [];
      labels := new nat[0];
    }

    /** `pre_processing`, the same on every rank as in the sequential task. */
    method PreProcessing(inputsCount: seq<nat>, buffer: seq<Byte>)
      requires rank < worldSize
      requires |inputsCount| >= 2 && inputsCount[0] < CountBound && inputsCount[1] < CountBound
      requires inputsCount[0] * inputsCount[1] <= |buffer|
      modifies this
      ensures Valid() && fresh(labels)
      ensures rows == inputsCount[0] && cols == inputsCount[1]
      ensures inputImage == buffer[..rows * cols]
      ensures labels[..] == Resize(old(labels[..]), rows * cols)
    {
      rows := inputsCount[0];
      cols := inputsCount[1];
      RowStartIsProduct(cols, rows);
      inputImage := buffer[..rows * cols];
      labels := ResizeLabels(labels, rows * cols);
    }

    /** The local part of `run`: the pass restricted to this rank's band, in
        place on the label array. */
    method Run()
      requires Valid()
      modifies labels
      ensures labels[..] == ScanTo(ParBand(inputImage, rows, cols, worldSize, rank), Scan(old(labels[..]), 1),
                                   BandEnd(rows, worldSize, rank), 0).labels
    {
      var b := ParBand(inputImage, rows, cols, worldSize, rank);
      var next := LabelBand(b, labels);
    }
  }

  /** The image `pre_processing` takes from the input buffer: its first
      rows * cols bytes. */
  function Image(buffer: seq<Byte>, rows: nat, cols: nat): (img: seq<Byte>)
    requires rows * cols <= |buffer|
    ensures |img| == RowStart(cols, rows)
    ensures img == buffer[..rows * cols]
  {
    RowStartIsProduct(cols, rows);
    buffer[..rows * cols]
  }

  /** A fresh sequential task run through `pre_processing` and `run`: its
      labels are those of the pass from all-zero labels over the whole image,
      of which `FreshPass` states what the source promises. */
  method LabelImage(inputsCount: seq<nat>, buffer: seq<Byte>) returns (labels: seq<nat>)
    requires |inputsCount| >= 2 && inputsCount[0] < CountBound && inputsCount[1] < CountBound
    requires inputsCount[0] * inputsCount[1] <= |buffer|
    ensures labels == Fresh(Band(Image(buffer, inputsCount[0], inputsCount[1]), inputsCount[0], inputsCount[1], 0, inputsCount[0])).labels
  {
    var task := new ComponentLabelingSeq();
    task.PreProcessing(inputsCount, buffer);
    assert task.labels[..] == Zeros(task.labels.Length);
    task.Run();
    labels := task.labels[..];
  }

  /** A fresh parallel task on one rank run through `pre_processing` and the
      local part of `run`: its labels are those of the pass from all-zero
      labels over that rank's band. */
  method LabelImageBand(inputsCount: seq<nat>, buffer: seq<Byte>, rank: nat, p: nat) returns (labels: seq<nat>)
    requires rank < p
    requires |inputsCount| >= 2 && inputsCount[0] < CountBound && inputsCount[1] < CountBound
    requires inputsCount[0] * inputsCount[1] <= |buffer|
    ensures labels == Fresh(ParBand(Image(buffer, inputsCount[0], inputsCount[1]), inputsCount[0], inputsCount[1], p, rank)).labels
  {
    var task := new ComponentLabelingPar(rank, p);
    task.PreProcessing(inputsCount, buffer);
    assert task.labels[..] == Zeros(task.labels.Length);
    task.Run();
    labels := task.labels[..];
  }
}
