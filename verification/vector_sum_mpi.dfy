/** The MPI vector-sum task: a sequential reference (`MPIVectorSumSequential`)
    and the block-partitioned parallel version (`MPIVectorSumParallel`). The
    parallel object stands for all `worldSize` processes at once: a field the
    source keeps per process is a sequence indexed by rank, and the broadcast,
    scatter and reduce are sequential functions over all ranks. */
module VectorSumMpi {
  import opened Fold
  import opened TaskData
  import opened BlockPartition

  class MPIVectorSumSequential {
    const taskData: SumTaskData
    var inputVector: seq<int>
    var result: int

    constructor (taskData: SumTaskData)
      ensures this.taskData == taskData && inputVector == [] && result == 0
    {
      this.taskData := taskData;
      inputVector := [];
      result := 0;
    }

    /** Only the output size is checked: exactly one output slot. */
    method Validation() returns (ok: bool)
      requires |taskData.outputsCount| > 0
      ensures ok <==> taskData.outputsCount[0] == 1
    {
      ok := taskData.outputsCount[0] == 1;
    }

    /** Copies the `inputsCount[0]` input elements one by one, in order, and
        sets the result to 0. */
    method PreProcessing()
      requires taskData.InputStaged()
      modifies this
      ensures inputVector == taskData.inputs[0][..taskData.inputsCount[0]]
      ensures result == 0
    {
      var count := taskData.inputsCount[0];
      var input := taskData.inputs[0];
      inputVector := seq(count, _ => 0);
      var i := 0;
      while i < count
        invariant 0 <= i <= count && |inputVector| == count
        invariant forall k :: 0 <= k < i ==> inputVector[k] == input[k]
      {
        inputVector := inputVector[i := input[i]];
        i := i + 1;
      }
      assert inputVector == input[..count];
      result := 0;
    }

    /** Sums the copied vector; the copy is left as it was. */
    method Run()
      modifies this
      ensures inputVector == old(inputVector)
      ensures result == Sum(inputVector)
    {
      result := Accumulate(inputVector);
    }

    /** Stores the result in the first element of the output buffer. */
    method PostProcessing()
      requires taskData.OutputStaged()
      modifies taskData.outputs[0]
      ensures taskData.outputs[0][0] == result
      ensures forall k :: 1 <= k < taskData.outputs[0].Length ==>
                taskData.outputs[0][k] == old(taskData.outputs[0][k])
    {
      taskData.outputs[0][0] := result;
    }
  }

  class MPIVectorSumParallel {
    /** The task data of the root process (rank 0). */
    const taskData: SumTaskData
    /** The number of processes, `world.size()`. */
    const worldSize: nat
    /** The root's copy of the whole input. */
    var inputVector: seq<int>
    /** `local_vector` of each rank. */
    var localVectors: seq<seq<int>>
    /** `local_sum` of each rank. */
    var localSums: seq<int>
    /** `result` on the root, the target of the reduce. */
    var result: int

    constructor (taskData: SumTaskData, worldSize: nat)
      requires worldSize > 0
      ensures this.taskData == taskData && this.worldSize == worldSize
      ensures inputVector == [] && result == 0
      ensures localVectors == seq(worldSize, _ => []) && |localSums| == worldSize
    {
      this.taskData := taskData;
      this.worldSize := worldSize;
      inputVector := [];
      localVectors := seq(worldSize, _ => []);
      localSums := seq(worldSize, _ => 0);
      result := 0;
    }

    /** Every rank holds the chunk of the root's input that the block
        partition assigns to it. */
    ghost predicate Scattered()
      reads this
    {
      worldSize > 0 && localVectors == Distribute(inputVector, worldSize)
    }

    /** The root checks that exactly one output slot is declared. (The
        non-root path of the source is not well-formed and is not modelled.) */
    method Validation() returns (ok: bool)
      requires |taskData.outputsCount| > 0
      ensures ok <==> taskData.outputsCount[0] == 1
    {
      ok := taskData.outputsCount[0] == 1;
    }

    /** The root copies the input; the size is broadcast; every rank computes
        the same `send_counts`/`disp`; the input is scattered so that rank `p`
        receives `send_counts[p]` elements from offset `disp[p]`; `local_sum`
        and `result` start at 0. */
    method PreProcessing()
      requires worldSize > 0 && taskData.InputStaged()
      modifies this
      ensures inputVector == taskData.inputs[0][..taskData.inputsCount[0]]
      ensures Scattered()
      ensures |localVectors| == worldSize
      ensures forall p :: 0 <= p < worldSize ==>
                |localVectors[p]| == ChunkSize(|inputVector|, worldSize, p)
      ensures localSums == seq(worldSize, _ => 0) && result == 0
    {
      var n := taskData.inputsCount[0];
      inputVector := taskData.inputs[0][..n];
      var sendCounts, disp := ComputePartition(n, worldSize);
      localVectors := Scatterv(inputVector, sendCounts, disp);
      localSums := seq(worldSize, _ => 0);
      result := 0;
    }

    /** Each rank sums its local vector; the local sums are reduced with `+`
        onto the root, which then holds the sum of the whole input. */
    method Run()
      requires Scattered()
      modifies this
      ensures inputVector == old(inputVector) && localVectors == old(localVectors)
      ensures |localSums| == worldSize
      ensures forall p :: 0 <= p < worldSize ==> localSums[p] == Sum(localVectors[p])
      ensures result == Sum(inputVector)
    {
      localSums := LocalSums(localVectors);
      result := Sum(localSums);
      WorkerCountInvariance(inputVector, worldSize);
    }

    /** The root stores the result in the first element of the output buffer. */
    method PostProcessing()
      requires taskData.OutputStaged()
      modifies taskData.outputs[0]
      ensures taskData.outputs[0][0] == result
      ensures forall k :: 1 <= k < taskData.outputs[0].Length ==>
                taskData.outputs[0][k] == old(taskData.outputs[0][k])
    {
      taskData.outputs[0][0] := result;
    }
  }
}
