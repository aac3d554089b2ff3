/** Sum of a vector of 32-bit integers, sequentially and split into balanced
    contiguous chunks, one per rank, whose partial sums are added up at the
    root. */
module VectorSum {
  import opened TaskData

  /** The bound on an element count held in `inputs_count` (`uint32_t`). */
  const CountBound: nat := 0x1_0000_0000

  /** The integer sum of a sequence, adding from the left as the loops do. */
  function Sum(s: seq<int>): int
  {
    if |s| == 0 then 0 else Sum(s[..|s| - 1]) + s[|s| - 1]
  }

  lemma {:induction false} SumAppend(a: seq<int>, b: seq<int>)
    ensures Sum(a + b) == Sum(a) + Sum(b)
    decreases |b|
  {
    if |b| == 0 {
      assert a + b == a;
    } else {
      assert (a + b)[..|a + b| - 1] == a + b[..|b| - 1];
      SumAppend(a, b[..|b| - 1]);
    }
  }

  /** A sum of n values of `int32_t` lies between n * -2^31 and n * (2^31 - 1). */
  lemma {:induction false} SumBounds(s: seq<Int32>)
    ensures -0x8000_0000 * |s| <= Sum(s) <= 0x7FFF_FFFF * |s|
    decreases |s|
  {
    if |s| > 0 {
      SumBounds(s[..|s| - 1]);
    }
  }

  /** Fewer than 2^32 values of `int32_t` (any count `inputs_count` can hold)
      sum to a value of `int64_t`: the 64-bit accumulator never overflows. */
  lemma SumFitsInt64(s: seq<Int32>)
    requires |s| < CountBound
    ensures -0x8000_0000_0000_0000 <= Sum(s) < 0x8000_0000_0000_0000
  {
    SumBounds(s);
  }

  /** A vector of n ones sums to n. */
  lemma {:induction false} SumOfOnes(s: seq<int>)
    requires forall i :: 0 <= i < |s| ==> s[i] == 1
    ensures Sum(s) == |s|
    decreases |s|
  {
    if |s| > 0 {
      SumOfOnes(s[..|s| - 1]);
    }
  }

  /** `validation`, shared by both tasks: an output buffer is present and its
      count is 1. The emptiness test comes first, so `outputs_count[0]` is
      read only when there is an output. */
  function Validation(td: TaskShape): (ok: bool)
    requires td.outputs > 0 ==> |td.outputsCount| > 0
    ensures ok <==> td.outputs > 0 && td.outputsCount[0] == 1
  {
    !(td.outputs == 0) && td.outputsCount[0] == 1
  }

  /** Task data without an output buffer, such as that of a rank the test
      fills in nothing for, fails validation. */
  lemma ValidationNeedsOutput(td: TaskShape)
    requires td.outputs == 0
    ensures !Validation(td)
    ensures !Validation(Empty)
  {
  }

  /** The `run` loop of the sequential task, and `std::accumulate` in the
      parallel one: the sum of the elements. */
  method Accumulate(s: seq<Int32>) returns (sum: int)
    ensures sum == Sum(s)
  {
    sum := 0;
    for i := 0 to |s|
      invariant sum == Sum(s[..i])
    {
      assert s[..i + 1][..i] == s[..i];
      sum := sum + s[i];
    }
    assert s[..|s|] == s;
  }

  /** The number of elements rank i receives: `total / P`, plus one for each
      of the first `total % P` ranks. */
  function ChunkSize(total: nat, p: nat, i: nat): nat
    requires p >= 1
  {
    total / p + (if i < total % p then 1 else 0)
  }

  /** Where rank i's chunk starts: the sizes of the chunks before it, added up. */
  function ChunkOffset(total: nat, p: nat, i: nat): nat
    requires p >= 1
  {
    if i == 0 then 0 else ChunkOffset(total, p, i - 1) + ChunkSize(total, p, i - 1)
  }

  function Min(a: nat, b: nat): nat
  {
    if a <= b then a else b
  }

  /** The offset of chunk i is i * (total / P) plus the number of enlarged
      chunks before it. */
  lemma {:induction false} ChunkOffsetClosed(total: nat, p: nat, i: nat)
    requires p >= 1
    ensures ChunkOffset(total, p, i) == i * (total / p) + Min(i, total % p)
  {
    if i > 0 {
      ChunkOffsetClosed(total, p, i - 1);
      assert (i - 1) * (total / p) + total / p == i * (total / p);
    }
  }

  /** The chunk sizes differ by at most one, the larger ones come first, and
      over all P ranks they add up to the total: the last chunk ends at
      `total`. */
  lemma ChunksBalanced(total: nat, p: nat)
    requires p >= 1
    ensures forall i, j :: 0 <= i < p && 0 <= j < p ==>
              ChunkSize(total, p, i) <= ChunkSize(total, p, j) + 1
    ensures forall i, j :: 0 <= i <= j < p ==> ChunkSize(total, p, j) <= ChunkSize(total, p, i)
    ensures ChunkOffset(total, p, p) == total
  {
    ChunkOffsetClosed(total, p, p);
    assert total == p * (total / p) + total % p;
  }

  /** Chunks are laid out in rank order without gaps or overlaps: each one
      ends where the next begins, and a later chunk starts no earlier than an
      earlier one ends. */
  lemma {:induction false} ChunksOrdered(total: nat, p: nat, i: nat, j: nat)
    requires p >= 1 && i < j
    ensures ChunkOffset(total, p, i) + ChunkSize(total, p, i) <= ChunkOffset(total, p, j)
    decreases j
  {
    if i + 1 < j {
      ChunksOrdered(total, p, i, j - 1);
    }
  }

  lemma {:induction false} ChunkOffsetMono(total: nat, p: nat, i: nat, j: nat)
    requires p >= 1 && i <= j
    ensures ChunkOffset(total, p, i) <= ChunkOffset(total, p, j)
  {
    if i < j {
      ChunksOrdered(total, p, i, j);
    }
  }

  /** Every index below the total lies in exactly one chunk, that of
      `ChunkOwner`. */
  function ChunkOwner(total: nat, p: nat, k: nat): (i: nat)
    requires p >= 1 && k < total
    ensures i < p && ChunkOffset(total, p, i) <= k < ChunkOffset(total, p, i + 1)
    decreases p
  {
    ChunksBalanced(total, p);
    OwnerSearch(total, p, k, p)
  }

  function OwnerSearch(total: nat, p: nat, k: nat, j: nat): (i: nat)
    requires p >= 1 && 1 <= j <= p && k < ChunkOffset(total, p, j)
    ensures i < j && ChunkOffset(total, p, i) <= k < ChunkOffset(total, p, i + 1)
    decreases j
  {
    if ChunkOffset(total, p, j - 1) <= k then j - 1 else OwnerSearch(total, p, k, j - 1)
  }

  lemma ChunksDisjoint(total: nat, p: nat, i: nat, j: nat, k: nat)
    requires p >= 1 && i < p && j < p
    requires ChunkOffset(total, p, i) <= k < ChunkOffset(total, p, i + 1)
    requires ChunkOffset(total, p, j) <= k < ChunkOffset(total, p, j + 1)
    ensures i == j
  {
    if i < j {
      ChunksOrdered(total, p, i, j);
    } else if j < i {
      ChunksOrdered(total, p, j, i);
    }
  }

  /** Rank i's chunk of the input. */
  function Chunk(input: seq<Int32>, p: nat, i: nat): (c: seq<Int32>)
    requires p >= 1 && i < p
    ensures |c| == ChunkSize(|input|, p, i)
  {
    ChunksBalanced(|input|, p);
    ChunkOffsetMono(|input|, p, i + 1, p);
    input[ChunkOffset(|input|, p, i)..ChunkOffset(|input|, p, i + 1)]
  }

  /** The partial sums of the first k chunks, added in rank order. */
  function PartialSums(input: seq<Int32>, p: nat, k: nat): int
    requires p >= 1 && k <= p
  {
    if k == 0 then 0 else PartialSums(input, p, k - 1) + Sum(Chunk(input, p, k - 1))
  }

  /** The first k chunks together are the input up to the start of chunk k,
      so the sum of their sums is the sum of that prefix. */
  lemma {:induction false} PartialSumsPrefix(input: seq<Int32>, p: nat, k: nat)
    requires p >= 1 && k <= p
    ensures ChunkOffset(|input|, p, k) <= |input|
    ensures PartialSums(input, p, k) == Sum(input[..ChunkOffset(|input|, p, k)])
  {
    ChunksBalanced(|input|, p);
    ChunkOffsetMono(|input|, p, k, p);
    if k > 0 {
      PartialSumsPrefix(input, p, k - 1);
      var a := ChunkOffset(|input|, p, k - 1);
      var b := ChunkOffset(|input|, p, k);
      assert input[..b] == input[..a] + input[a..b];
      SumAppend(input[..a], input[a..b]);
    }
  }

  /** Reducing the chunk sums with `+` gives the sequential sum. */
  lemma ChunkSumsTotal(input: seq<Int32>, p: nat)
    requires p >= 1
    ensures PartialSums(input, p, p) == Sum(input)
  {
    PartialSumsPrefix(input, p, p);
    ChunksBalanced(|input|, p);
    assert input[..|input|] == input;
  }

  /** The root's `send_counts`: P copies of `total / P`, then one more for
      each of the first `total % P` ranks. */
  method SendCounts(total: nat, p: nat) returns (counts: seq<nat>)
    requires p >= 1
    ensures |counts| == p && forall i :: 0 <= i < p ==> counts[i] == ChunkSize(total, p, i)
  {
    counts := seq(p, _ => total / p);
    var remainder := total % p;
    for i := 0 to remainder
      invariant |counts| == p
      invariant forall j :: 0 <= j < p ==> counts[j] == total / p + (if j < i then 1 else 0)
    {
      counts := counts[i := counts[i] + 1];
    }
  }

  /** The root's `offsets`: 0 first, then each the previous plus the previous
      count; that is, the sums of the counts before each rank. */
  method Offsets(counts: seq<nat>) returns (offsets: seq<nat>)
    requires |counts| >= 1
    ensures |offsets| == |counts| && forall i :: 0 <= i < |counts| ==> offsets[i] == Sum(counts[..i])
  {
    offsets := seq(|counts|, _ => 0);
    for i := 1 to |counts|
      invariant |offsets| == |counts|
      invariant forall j :: 0 <= j < i ==> offsets[j] == Sum(counts[..j])
    {
      assert counts[..i][..i - 1] == counts[..i - 1];
      offsets := offsets[i := offsets[i - 1] + counts[i - 1]];
    }
  }

  /** Summing the balanced counts before rank i gives the chunk offset. */
  lemma {:induction false} OffsetsAreChunkOffsets(counts: seq<nat>, total: nat, p: nat, i: nat)
    requires p >= 1 && |counts| == p && i <= p
    requires forall j :: 0 <= j < p ==> counts[j] == ChunkSize(total, p, j)
    ensures Sum(counts[..i]) == ChunkOffset(total, p, i)
  {
    if i > 0 {
      OffsetsAreChunkOffsets(counts, total, p, i - 1);
      assert counts[..i][..i - 1] == counts[..i - 1];
    }
  }

  /** A rank's `local_size`: `total / P`, one more below `total % P`. */
  method LocalSize(total: nat, p: nat, rank: nat) returns (size: nat)
    requires p >= 1
    ensures size == ChunkSize(total, p, rank)
  {
    size := total / p;
    var remainder := total % p;
    if rank < remainder {
      size := size + 1;
    }
  }

  /** The root's two scatterv tables together: the counts and the offsets
      of the balanced chunks. */
  method Layout(total: nat, p: nat) returns (counts: seq<nat>, offsets: seq<nat>)
    requires p >= 1
    ensures |counts| == p && |offsets| == p
    ensures forall i :: 0 <= i < p ==>
              counts[i] == ChunkSize(total, p, i) && offsets[i] == ChunkOffset(total, p, i)
  {
    counts := SendCounts(total, p);
    offsets := Offsets(counts);
    forall i | 0 <= i < p
      ensures offsets[i] == ChunkOffset(total, p, i)
    {
      OffsetsAreChunkOffsets(counts, total, p, i);
    }
  }

  /** Chunk i ends where chunk i + 1 starts, no later than the total. */
  lemma ChunkInside(total: nat, p: nat, i: nat)
    requires p >= 1 && i < p
    ensures ChunkOffset(total, p, i) + ChunkSize(total, p, i) == ChunkOffset(total, p, i + 1) <= total
  {
    ChunksBalanced(total, p);
    ChunkOffsetMono(total, p, i + 1, p);
  }

  /** The sequential task. */
  class VectorSumSeq {
    var input: seq<Int32>
    var sum: int

    constructor ()
      ensures input == [] && sum == 0
    {
      input, sum := [], 0;
    }

    /** `pre_processing`: the first `inputs_count[0]` elements of the input
        buffer. */
    method PreProcessing(buffer: seq<Int32>, count: nat)
      requires count <= |buffer|
      modifies this
      ensures input == buffer[..count] && sum == old(sum)
    {
      input := buffer[..count];
    }

    /** `run`: `sum_` becomes the sum of the input. */
    method Run()
      modifies this
      ensures sum == Sum(input) && input == old(input)
    {
      sum := Accumulate(input);
    }
  }

  /** The parallel task on one rank. */
  class VectorSumPar {
    const rank: nat
    const worldSize: nat
    var input: seq<Int32>
    var localSize: nat

    constructor (rank: nat, worldSize: nat)
      requires rank < worldSize
      ensures this.rank == rank && this.worldSize == worldSize && input == [] && localSize == 0
    {
      this.rank, this.worldSize := rank, worldSize;
      input, localSize := [], 0;
    }

    /** `pre_processing` with the collectives read as what they deliver:
        `rootInput` is the root's input buffer (its first `inputs_count[0]`
        elements), whose length the broadcast makes known everywhere. The
        root alone builds `send_counts` and `offsets`; scatterv then hands
        every rank its chunk. */
    method PreProcessing(rootInput: seq<Int32>) returns (sendCounts: seq<nat>, offsets: seq<nat>)
      requires rank < worldSize
      modifies this
      ensures localSize == ChunkSize(|rootInput|, worldSize, rank)
      ensures input == Chunk(rootInput, worldSize, rank)
      ensures rank == 0 ==> |sendCounts| == worldSize && |offsets| == worldSize
      ensures rank == 0 ==> forall i :: 0 <= i < worldSize ==>
                sendCounts[i] == ChunkSize(|rootInput|, worldSize, i) &&
                offsets[i] == ChunkOffset(|rootInput|, worldSize, i)
      ensures rank == 0 ==> sendCounts[rank] == localSize
      ensures rank != 0 ==> sendCounts == [] && offsets == []
    {
      var totalSize := |rootInput|;
      localSize := LocalSize(totalSize, worldSize, rank);
      sendCounts, offsets := [], [];
      if rank == 0 {
        sendCounts, offsets := Layout(totalSize, worldSize);
      }
      // scatterv: rank `rank` receives `localSize` elements from the root's
      // buffer, starting at the root's offsets[rank]
      ChunkInside(totalSize, worldSize, rank);
      var start := ChunkOffset(totalSize, worldSize, rank);
      input := rootInput[start..start + localSize];
    }

    /** The local part of `run`: the sum of this rank's chunk. */
    method Run() returns (localSum: int)
      ensures localSum == Sum(input)
    {
      localSum := Accumulate(input);
    }
  }

  /** The parallel task run on P ranks in turn, with `reduce(plus)` at the
      root adding the local sums in rank order: the result equals the
      sequential sum. */
  method ParallelSum(rootInput: seq<Int32>, p: nat) returns (sum: int)
    requires p >= 1
    ensures sum == Sum(rootInput)
  {
    sum := 0;
    for r := 0 to p
      invariant sum == PartialSums(rootInput, p, r)
    {
      var task := new VectorSumPar(r, p);
      var _, _ := task.PreProcessing(rootInput);
      var localSum := task.Run();
      sum := sum + localSum;
    }
    ChunkSumsTotal(rootInput, p);
  }
}
