/** The harness's task data as the vector-sum tasks see it: raw input and
    output buffers of `int`, each with its element count. Buffer `k` is
    `inputs[k]` and holds at least `inputsCount[k]` elements when the
    harness stages it correctly. */
module TaskData {

  class SumTaskData {
    const inputs: seq<array<int>>
    const inputsCount: seq<nat>
    const outputs: seq<array<int>>
    const outputsCount: seq<nat>

    constructor (inputs: seq<array<int>>, inputsCount: seq<nat>,
                 outputs: seq<array<int>>, outputsCount: seq<nat>)
      ensures this.inputs == inputs && this.inputsCount == inputsCount
      ensures this.outputs == outputs && this.outputsCount == outputsCount
    {
      this.inputs := inputs;
      this.inputsCount := inputsCount;
      this.outputs := outputs;
      this.outputsCount := outputsCount;
    }

    /** The first input buffer is there and holds the `inputsCount[0]`
        elements the task will copy out of it. */
    predicate InputStaged()
      reads this
    {
      |inputs| > 0 && |inputsCount| > 0 && inputsCount[0] <= inputs[0].Length
    }

    /** The first output buffer is there and has room for one result. */
    predicate OutputStaged()
      reads this
    {
      |outputs| > 0 && outputs[0].Length > 0
    }
  }
}
