/** The sequential Gaussian-elimination task of the seq variant. Only its
    structure is modelled: validation, the copy of the inputs, and where
    `run()` puts a solution of which length. The elimination arithmetic
    itself is IEEE-754 double arithmetic and stays outside the model: `Run`
    takes the value it produces for each entry as a parameter. */
module GaussianSeq {
  import opened GaussianValidation

  /** The task data: the input buffers, and the output buffers that `run()`
      overwrites. */
  class GaussTaskData {
    const inputs: seq<Buffer>
    var outputs: seq<Buffer>

    constructor (inputs: seq<Buffer>, outputs: seq<Buffer>)
      ensures this.inputs == inputs && this.outputs == outputs
    {
      this.inputs := inputs;
      this.outputs := outputs;
    }
  }

  class GaussianSequentialTask {
    /** The shared task data, or null when the task was built without one. */
    const taskData: GaussTaskData?
    var matrix: seq<seq<real>>
    var vectorB: seq<real>

    constructor (taskData: GaussTaskData?)
      ensures this.taskData == taskData && matrix == [] && vectorB == []
    {
      this.taskData := taskData;
      matrix := [];
      vectorB := [];
    }

    /** Accepts exactly the admissible systems: task data present with a
        non-empty square matrix, `b` and output of matching length, and no
        zero on the diagonal. */
    method Validation() returns (ok: bool)
      ensures ok <==> taskData != null && Admissible(Some(Buffers(taskData.inputs, taskData.outputs)))
    {
      if taskData == null {
        return false;
      }
      ok := Validate(Some(Buffers(taskData.inputs, taskData.outputs)));
    }

    /** Copies the matrix and `b` out of the input buffers unchanged. */
    method PreProcessing()
      requires taskData != null && |taskData.inputs| >= 2
      requires taskData.inputs[0].MatrixBuffer? && taskData.inputs[1].VectorBuffer?
      modifies this
      ensures matrix == taskData.inputs[0].rows && vectorB == taskData.inputs[1].elems
    {
      matrix := taskData.inputs[0].rows;
      vectorB := taskData.inputs[1].elems;
    }

    /** Replaces output 0 by a solution vector with one entry per matrix row;
        `solutionEntry(i)` is the value elimination and back-substitution
        compute for entry `i`. The other output buffers are untouched. */
    method Run(solutionEntry: int -> real)
      requires taskData != null && |taskData.outputs| >= 1
      modifies taskData
      ensures |taskData.outputs| == |old(taskData.outputs)|
      ensures taskData.outputs[0].VectorBuffer?
      ensures |taskData.outputs[0].elems| == |matrix|
      ensures forall i :: 0 <= i < |matrix| ==> taskData.outputs[0].elems[i] == solutionEntry(i)
      ensures taskData.outputs[1..] == old(taskData.outputs)[1..]
    {
      var n := |matrix|;
      var solution := seq(n, solutionEntry);
      taskData.outputs := taskData.outputs[0 := VectorBuffer(solution)];
    }
  }
}
