/** Input-shape validation of the Gaussian-elimination tasks. The task data
    holds a matrix (a sequence of rows), a right-hand side `b` and an output
    vector, each behind an untyped buffer pointer; a buffer is modelled as a
    value that is either missing or holds one of those two shapes. */
module GaussianValidation {

  datatype Option<T> = None | Some(value: T)

  datatype Buffer =
    | NoBuffer
    | MatrixBuffer(rows: seq<seq<real>>)
    | VectorBuffer(elems: seq<real>)

  /** What one process's task data holds: input buffer 0 is the matrix,
      input buffer 1 is `b`, output buffer 0 receives the solution. */
  datatype Buffers = Buffers(inputs: seq<Buffer>, outputs: seq<Buffer>)

  /** The reference definition of an admissible system: task data is present
      with two inputs and an output; the matrix is non-empty and square; `b`
      and the output have one entry per row; no diagonal entry is zero. */
  ghost predicate Admissible(taskData: Option<Buffers>)
  {
    && taskData.Some?
    && |taskData.value.inputs| >= 2 && |taskData.value.outputs| >= 1
    && taskData.value.inputs[0].MatrixBuffer?
    && var a := taskData.value.inputs[0].rows;
    && |a| > 0
    && (forall i :: 0 <= i < |a| ==> |a[i]| == |a|)
    && taskData.value.inputs[1].VectorBuffer? && |taskData.value.inputs[1].elems| == |a|
    && taskData.value.outputs[0].VectorBuffer? && |taskData.value.outputs[0].elems| == |a|
    && (forall i :: 0 <= i < |a| ==> a[i][i] != 0.0)
  }

  /** The scan over the rows: stops at the first row whose length is not `n`. */
  function AllRowsHaveLength(rows: seq<seq<real>>, n: nat): (ok: bool)
    ensures ok <==> forall i :: 0 <= i < |rows| ==> |rows[i]| == n
  {
    if |rows| == 0 then true
    else if |rows[0]| != n then false
    else AllRowsHaveLength(rows[1..], n)
  }

  /** The scan over the diagonal from position `i`: stops at the first zero. */
  function DiagonalNonZeroFrom(a: seq<seq<real>>, i: nat): (ok: bool)
    requires forall k :: 0 <= k < |a| ==> |a[k]| == |a|
    requires i <= |a|
    ensures ok <==> forall k :: i <= k < |a| ==> a[k][k] != 0.0
    decreases |a| - i
  {
    if i == |a| then true
    else if a[i][i] == 0.0 then false
    else DiagonalNonZeroFrom(a, i + 1)
  }

  /** `validation()` of the sequential Gaussian task: the checks in source
      order, each returning false on the first failure. */
  function Validate(taskData: Option<Buffers>): (ok: bool)
    ensures ok <==> Admissible(taskData)
    ensures taskData.None? ==> !ok
    ensures taskData.Some? && (|taskData.value.inputs| < 2 || |taskData.value.outputs| == 0) ==> !ok
  {
    if taskData.None? || |taskData.value.inputs| < 2 || |taskData.value.outputs| == 0 then false
    else
      var matrix, b, output := taskData.value.inputs[0], taskData.value.inputs[1], taskData.value.outputs[0];
      if !matrix.MatrixBuffer? || |matrix.rows| == 0 then false
      else
        var n := |matrix.rows|;
        if !AllRowsHaveLength(matrix.rows, n) then false
        else if !b.VectorBuffer? || |b.elems| != n then false
        else if !output.VectorBuffer? || |output.elems| != n then false
        else DiagonalNonZeroFrom(matrix.rows, 0)
  }

  /** A matrix with a row that is not `n` long is rejected, however the rest looks. */
  lemma NonSquareRejected(taskData: Option<Buffers>, i: nat)
    requires taskData.Some? && |taskData.value.inputs| >= 2
    requires taskData.value.inputs[0].MatrixBuffer?
    requires i < |taskData.value.inputs[0].rows|
    requires |taskData.value.inputs[0].rows[i]| != |taskData.value.inputs[0].rows|
    ensures !Validate(taskData)
  {
  }

  /** A zero on the diagonal is rejected, however the rest looks. */
  lemma ZeroDiagonalRejected(taskData: Option<Buffers>, i: nat)
    requires taskData.Some? && |taskData.value.inputs| >= 2
    requires taskData.value.inputs[0].MatrixBuffer?
    requires var a := taskData.value.inputs[0].rows;
             i < |a| && i < |a[i]| && a[i][i] == 0.0
    ensures !Validate(taskData)
  {
  }

  /** The first guard every process of the parallel task runs: its task data
      is present with at least two inputs and one output. */
  predicate HasSlots(taskData: Option<Buffers>)
  {
    taskData.Some? && |taskData.value.inputs| >= 2 && |taskData.value.outputs| >= 1
  }

  /** `local_valid` of process `rank`: the root keeps 1 (it only gets here
      after its own checks passed); any other process drops to 0 when its
      matrix is missing or empty. */
  function LocalFlag(rank: nat, taskData: Option<Buffers>): (flag: nat)
    requires HasSlots(taskData)
    ensures flag <= 1
    ensures flag == 0 <==> rank != 0 && (!taskData.value.inputs[0].MatrixBuffer? || |taskData.value.inputs[0].rows| == 0)
  {
    if rank == 0 then 1
    else
      var matrix := taskData.value.inputs[0];
      if !matrix.MatrixBuffer? || |matrix.rows| == 0 then 0 else 1
  }

  /** `boost::mpi::reduce` of the flags with `std::plus`. */
  function FlagSum(flags: seq<nat>): (sum: nat)
    ensures sum == 0 <==> forall p :: 0 <= p < |flags| ==> flags[p] == 0
    ensures forall p :: 0 <= p < |flags| ==> flags[p] <= sum
  {
    if |flags| == 0 then 0 else flags[0] + FlagSum(flags[1..])
  }

  /** For 0/1 flags the sum is positive exactly when SOME flag is 1: the
      combination is an "any", not an "all". */
  lemma {:induction false} FlagSumPositiveIffAny(flags: seq<nat>)
    requires forall p :: 0 <= p < |flags| ==> flags[p] <= 1
    ensures FlagSum(flags) > 0 <==> exists p :: 0 <= p < |flags| && flags[p] == 1
  {
    if |flags| > 0 {
      FlagSumPositiveIffAny(flags[1..]);
      if flags[0] != 1 {
        assert forall p :: 1 <= p < |flags| ==> flags[p] == flags[1..][p - 1];
      } else {
        assert flags[0] == 1;
      }
    }
  }

  /** The flags of all processes, indexed by rank. */
  function Flags(perRank: seq<Option<Buffers>>): (flags: seq<nat>)
    requires forall p :: 0 <= p < |perRank| ==> HasSlots(perRank[p])
    ensures |flags| == |perRank|
    ensures forall p :: 0 <= p < |flags| ==> flags[p] <= 1
  {
    seq(|perRank|, p requires 0 <= p < |perRank| => LocalFlag(p, perRank[p]))
  }

  /** `validation()` of the parallel Gaussian task, as the root returns it.
      `perRank[p]` is the task data of process `p`. The root runs the full
      shape checks; if they pass, every process contributes its flag, the
      flags are summed onto the root and broadcast, and the verdict is
      "sum > 0". A root that fails its own checks returns false before any
      collective, whatever the other processes hold. The requires states
      only that, once the root reaches the reduce, every other process gets
      past its own first guard and reaches it too. Because the root's own
      flag is 1, the verdict is exactly the root's shape checks: the other
      processes' flags never change it. */
  function ParallelValidate(perRank: seq<Option<Buffers>>): (ok: bool)
    requires |perRank| >= 1
    requires Validate(perRank[0]) ==> forall p :: 1 <= p < |perRank| ==> HasSlots(perRank[p])
    ensures ok <==> Admissible(perRank[0])
  {
    if !Validate(perRank[0]) then false
    else FlagSum(Flags(perRank)) > 0
  }

  /** The verdict is true iff the root passes its checks and some process's
      flag is 1. */
  lemma ParallelVerdictIsAny(perRank: seq<Option<Buffers>>)
    requires |perRank| >= 1
    requires forall p :: 0 <= p < |perRank| ==> HasSlots(perRank[p])
    ensures ParallelValidate(perRank) <==>
              Validate(perRank[0]) && exists p :: 0 <= p < |perRank| && Flags(perRank)[p] == 1
  {
    FlagSumPositiveIffAny(Flags(perRank));
  }
}
