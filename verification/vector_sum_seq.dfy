/** The sequential vector-sum task `VectorSumSequential<T>` (seq variant),
    instantiated at mathematical integers. */
module VectorSumSeq {
  import opened Fold
  import opened TaskData

  class VectorSumSequential {
    const taskData: SumTaskData
    /** The task's private copy of the input vector. */
    var inputData: seq<int>
    var result: int

    constructor (taskData: SumTaskData)
      ensures this.taskData == taskData && inputData == []
    {
      this.taskData := taskData;
      inputData := [];
    }

    /** The input must be non-empty and exactly one output slot must be declared. */
    method Validation() returns (ok: bool)
      requires |taskData.inputsCount| > 0 && |taskData.outputsCount| > 0
      ensures ok <==> taskData.inputsCount[0] > 0 && taskData.outputsCount[0] == 1
    {
      var isInputValid := taskData.inputsCount[0] > 0;
      var isOutputValid := taskData.outputsCount[0] == 1;
      ok := isInputValid && isOutputValid;
    }

    /** Copies the first `inputsCount[0]` elements of the input buffer, in
        order, and resets the result to the zero value. */
    method PreProcessing()
      requires taskData.InputStaged()
      modifies this
      ensures inputData == taskData.inputs[0][..taskData.inputsCount[0]]
      ensures |inputData| == taskData.inputsCount[0]
      ensures result == 0
    {
      var inputSize := taskData.inputsCount[0];
      inputData := taskData.inputs[0][..inputSize];
      result := 0;
    }

    /** Folds the copied vector with `+` from zero; the copy is left as it was. */
    method Run()
      modifies this
      ensures inputData == old(inputData)
      ensures result == Sum(inputData)
    {
      result := Accumulate(inputData);
    }

    /** Writes the result into slot 0 of the output buffer and touches nothing else. */
    method PostProcessing()
      requires taskData.OutputStaged()
      modifies taskData.outputs[0]
      ensures taskData.outputs[0][0] == result
      ensures forall k :: 1 <= k < taskData.outputs[0].Length ==>
                taskData.outputs[0][k] == old(taskData.outputs[0][k])
    {
      taskData.outputs[0][0] := result;
    }
  }
}
