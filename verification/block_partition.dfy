/** The block partition that the parallel vector sum uses to hand out `n`
    elements to `w` processes: `send_counts` gives each contiguous chunk's
    length and `disp` its starting offset. The scatter and the reduce are
    stated as sequential functions over all chunks at once. */
module BlockPartition {
  import opened Fold
  import opened Arith

  /** Length of chunk `i`: everybody gets `n / w`, and the first `n % w`
      chunks get one element more. */
  function ChunkSize(n: nat, w: nat, i: nat): nat
    requires w > 0
  {
    n / w + (if i < n % w then 1 else 0)
  }

  /** Offset of chunk `i`, in closed form: the `i` chunks before it hold
      `n / w` elements each plus one extra for each of them below `n % w`. */
  function ChunkStart(n: nat, w: nat, i: nat): (s: nat)
    requires w > 0 && i <= w
    ensures i < w ==> s + ChunkSize(n, w, i) <= n
    ensures i == w ==> s == n
  {
    MulMonotone(i, w, n / w);
    MulMonotone(if i < w then i + 1 else i, w, n / w);
    i * (n / w) + (if i < n % w then i else n % w)
  }

  /** The whole `send_counts` vector. */
  function Counts(n: nat, w: nat): seq<nat>
    requires w > 0
  {
    seq(w, i requires 0 <= i < w => ChunkSize(n, w, i))
  }

  /** The whole `disp` vector. */
  function Starts(n: nat, w: nat): seq<nat>
    requires w > 0
  {
    seq(w, i requires 0 <= i < w => ChunkStart(n, w, i))
  }

  /** Each chunk starts where the previous one ends. */
  lemma ChunkStartStep(n: nat, w: nat, i: nat)
    requires w > 0 && i < w
    ensures ChunkStart(n, w, i + 1) == ChunkStart(n, w, i) + ChunkSize(n, w, i)
  {
    assert (i + 1) * (n / w) == i * (n / w) + n / w;
  }

  /** The loop of `MPIVectorSumParallel::pre_processing`: start every count
      at `n / w`, bump the first `n % w` of them, and build each offset from
      the previous offset and count. */
  method ComputePartition(n: nat, w: nat) returns (sendCounts: seq<nat>, disp: seq<nat>)
    requires w > 0
    ensures sendCounts == Counts(n, w) && disp == Starts(n, w)
    ensures disp[0] == 0
    ensures forall i :: 0 < i < w ==> disp[i] == disp[i - 1] + sendCounts[i - 1]
    ensures disp[w - 1] + sendCounts[w - 1] == n
  {
    var vectorSendSize := n / w;
    var localSize := n % w;
    var counts := new nat[w](_ => vectorSendSize);
    var offsets := new nat[w](_ => 0);
    var i := 0;
    while i < w
      invariant 0 <= i <= w
      invariant forall k :: 0 <= k < i ==> counts[k] == ChunkSize(n, w, k)
      invariant forall k :: i <= k < w ==> counts[k] == vectorSendSize
      invariant forall k :: 0 <= k < i ==> offsets[k] == ChunkStart(n, w, k)
      invariant i == 0 ==> offsets[0] == 0
    {
      if i < localSize {
        counts[i] := counts[i] + 1;
      }
      if i > 0 {
        ChunkStartStep(n, w, i - 1);
        offsets[i] := offsets[i - 1] + counts[i - 1];
      }
      i := i + 1;
    }
    sendCounts, disp := counts[..], offsets[..];
    PartitionFromPointwise(n, w, sendCounts, disp);
  }

  /** Two vectors that agree entry by entry with the closed forms are the
      partition, and they satisfy the recurrence the loop builds them by. */
  lemma PartitionFromPointwise(n: nat, w: nat, counts: seq<nat>, offsets: seq<nat>)
    requires w > 0 && |counts| == w && |offsets| == w
    requires forall k :: 0 <= k < w ==> counts[k] == ChunkSize(n, w, k)
    requires forall k :: 0 <= k < w ==> offsets[k] == ChunkStart(n, w, k)
    ensures counts == Counts(n, w) && offsets == Starts(n, w)
    ensures offsets[0] == 0
    ensures forall i :: 0 < i < w ==> offsets[i] == offsets[i - 1] + counts[i - 1]
    ensures offsets[w - 1] + counts[w - 1] == n
  {
    forall i | 0 < i < w
      ensures offsets[i] == offsets[i - 1] + counts[i - 1]
    {
      ChunkStartStep(n, w, i - 1);
    }
    ChunkStartStep(n, w, w - 1);
  }

  /** Chunk sizes are balanced: any two differ by at most one, and they never
      grow from one process to the next. */
  lemma ChunkSizesBalanced(n: nat, w: nat, i: nat, j: nat)
    requires w > 0 && i <= j < w
    ensures ChunkSize(n, w, i) == n / w || ChunkSize(n, w, i) == n / w + 1
    ensures ChunkSize(n, w, i) == n / w + 1 <==> i < n % w
    ensures ChunkSize(n, w, j) <= ChunkSize(n, w, i) <= ChunkSize(n, w, j) + 1
  {
  }

  /** The offsets are the prefix sums of the counts. */
  lemma {:induction false} StartsArePrefixSums(n: nat, w: nat, k: nat)
    requires w > 0 && k <= w
    ensures ChunkStart(n, w, k) == Sum(Counts(n, w)[..k])
  {
    if k > 0 {
      StartsArePrefixSums(n, w, k - 1);
      ChunkStartStep(n, w, k - 1);
      assert Counts(n, w)[..k][..k - 1] == Counts(n, w)[..k - 1];
    }
  }

  /** The counts add up to `n`: nothing is dropped and nothing is sent twice. */
  lemma CountsSumToLength(n: nat, w: nat)
    requires w > 0
    ensures Sum(Counts(n, w)) == n
  {
    StartsArePrefixSums(n, w, w);
    assert Counts(n, w)[..w] == Counts(n, w);
  }

  /** Chunks that come earlier lie wholly before later ones. */
  lemma {:induction false} ChunksDisjoint(n: nat, w: nat, i: nat, j: nat)
    requires w > 0 && i < j < w
    ensures ChunkStart(n, w, i) + ChunkSize(n, w, i) <= ChunkStart(n, w, j)
    decreases j - i
  {
    ChunkStartStep(n, w, i);
    if i + 1 < j {
      ChunksDisjoint(n, w, i + 1, j);
    }
  }

  /** Every position of `[0, n)` falls in some chunk (searching from chunk `from`
      upward when the position lies at or beyond that chunk's start). */
  lemma {:induction false} ChunkCovering(n: nat, w: nat, pos: nat, from: nat) returns (i: nat)
    requires w > 0 && from < w && ChunkStart(n, w, from) <= pos < n
    ensures from <= i < w
    ensures ChunkStart(n, w, i) <= pos < ChunkStart(n, w, i) + ChunkSize(n, w, i)
    decreases w - from
  {
    ChunkStartStep(n, w, from);
    if pos < ChunkStart(n, w, from) + ChunkSize(n, w, from) {
      i := from;
    } else {
      i := ChunkCovering(n, w, pos, from + 1);
    }
  }

  /** The chunks tile `[0, n)`: each position lies in exactly one of them. */
  lemma ChunksTile(n: nat, w: nat, pos: nat) returns (i: nat)
    requires w > 0 && pos < n
    ensures i < w && ChunkStart(n, w, i) <= pos < ChunkStart(n, w, i) + ChunkSize(n, w, i)
    ensures forall j :: 0 <= j < w && ChunkStart(n, w, j) <= pos < ChunkStart(n, w, j) + ChunkSize(n, w, j) ==> j == i
  {
    i := ChunkCovering(n, w, pos, 0);
    forall j | 0 <= j < w && ChunkStart(n, w, j) <= pos < ChunkStart(n, w, j) + ChunkSize(n, w, j)
      ensures j == i
    {
      if j < i {
        ChunksDisjoint(n, w, j, i);
      } else if i < j {
        ChunksDisjoint(n, w, i, j);
      }
    }
  }

  /** `boost::mpi::scatterv`: process `i` receives `sendCounts[i]` elements
      of `v` starting at `disp[i]`. */
  function Scatterv(v: seq<int>, sendCounts: seq<nat>, disp: seq<nat>): (chunks: seq<seq<int>>)
    requires |sendCounts| == |disp|
    requires forall i :: 0 <= i < |disp| ==> disp[i] + sendCounts[i] <= |v|
    ensures |chunks| == |disp|
    ensures forall i :: 0 <= i < |chunks| ==> |chunks[i]| == sendCounts[i]
    ensures forall i, j :: 0 <= i < |chunks| && 0 <= j < sendCounts[i] ==> chunks[i][j] == v[disp[i] + j]
  {
    seq(|disp|, i requires 0 <= i < |disp| => v[disp[i]..disp[i] + sendCounts[i]])
  }

  /** The local vectors of all `w` processes after the scatter. */
  function Distribute(v: seq<int>, w: nat): seq<seq<int>>
    requires w > 0
  {
    Scatterv(v, Counts(|v|, w), Starts(|v|, w))
  }

  /** The chunks laid end to end, as a gather back to the root would. */
  function Flatten(chunks: seq<seq<int>>): seq<int>
  {
    if |chunks| == 0 then [] else Flatten(chunks[..|chunks| - 1]) + chunks[|chunks| - 1]
  }

  /** Each process's `local_sum`. */
  function LocalSums(chunks: seq<seq<int>>): seq<int>
  {
    seq(|chunks|, i requires 0 <= i < |chunks| => Sum(chunks[i]))
  }

  /** The first `k` chunks, gathered, are the prefix of `v` up to chunk `k`'s start. */
  lemma {:induction false} GatherPrefix(v: seq<int>, w: nat, k: nat)
    requires w > 0 && k <= w
    ensures Flatten(Distribute(v, w)[..k]) == v[..ChunkStart(|v|, w, k)]
  {
    if k > 0 {
      var chunks := Distribute(v, w);
      GatherPrefix(v, w, k - 1);
      ChunkStartStep(|v|, w, k - 1);
      assert chunks[..k][..k - 1] == chunks[..k - 1];
      var a, b := ChunkStart(|v|, w, k - 1), ChunkStart(|v|, w, k);
      assert v[..b] == v[..a] + v[a..b];
    }
  }

  /** Scattering and gathering back gives the original vector. */
  lemma ScatterGatherRoundTrip(v: seq<int>, w: nat)
    requires w > 0
    ensures Flatten(Distribute(v, w)) == v
  {
    GatherPrefix(v, w, w);
    assert Distribute(v, w)[..w] == Distribute(v, w);
    assert v[..|v|] == v;
  }

  /** Adding the local sums is summing the gathered chunks. */
  lemma {:induction false} SumOfLocalSums(chunks: seq<seq<int>>)
    ensures Sum(LocalSums(chunks)) == Sum(Flatten(chunks))
  {
    if |chunks| > 0 {
      var last := |chunks| - 1;
      SumOfLocalSums(chunks[..last]);
      assert LocalSums(chunks)[..last] == LocalSums(chunks[..last]);
      SumAppend(Flatten(chunks[..last]), chunks[last]);
    }
  }

  /** Reducing every process's local sum with `+` gives the sum of the whole
      vector, whatever the number of processes. */
  lemma WorkerCountInvariance(v: seq<int>, w: nat)
    requires w > 0
    ensures Sum(LocalSums(Distribute(v, w))) == Sum(v)
  {
    SumOfLocalSums(Distribute(v, w));
    ScatterGatherRoundTrip(v, w);
  }

  /** Hence any two process counts give the same total. */
  lemma SameTotalForAnyWorldSize(v: seq<int>, w1: nat, w2: nat)
    requires w1 > 0 && w2 > 0
    ensures Sum(LocalSums(Distribute(v, w1))) == Sum(LocalSums(Distribute(v, w2)))
  {
    WorkerCountInvariance(v, w1);
    WorkerCountInvariance(v, w2);
  }
}
