/** The concrete cases the repository's functional tests assert, run
    through the modelled tasks phase by phase. */
module Scenarios {
  import opened Fold
  import opened TaskData
  import VectorSumSeq
  import VectorSumMpi
  import opened GaussianValidation

  /** Runs the sequential sum task on `input` and returns output slot 0. */
  method RunSequentialSum(input: array<int>) returns (ok: bool, out: int)
    ensures ok <==> input.Length > 0
    ensures ok ==> out == Sum(input[..])
  {
    var output := new int[1];
    var taskData := new SumTaskData([input], [input.Length], [output], [1]);
    var task := new VectorSumSeq.VectorSumSequential(taskData);
    ok := task.Validation();
    if !ok {
      return false, 0;
    }
    task.PreProcessing();
    task.Run();
    task.PostProcessing();
    out := output[0];
    assert input[..input.Length] == input[..];
  }

  /** The four sequential cases: [10] gives 10, 75836 ones give 75836,
      255 ones give 255, [0] gives 0. */
  method SequentialSumCases() returns (single: int, manyOnes: int, byteOnes: int, zero: int)
    ensures single == 10 && manyOnes == 75836 && byteOnes == 255 && zero == 0
  {
    var ok: bool;
    var a := new int[1](_ => 10);
    ok, single := RunSequentialSum(a);
    assert a[..] == [10];

    var b := new int[75836](_ => 1);
    ok, manyOnes := RunSequentialSum(b);
    assert b[..] == seq(75836, _ => 1);
    SumOfConstant(75836, 1);

    var c := new int[255](_ => 1);
    ok, byteOnes := RunSequentialSum(c);
    assert c[..] == seq(255, _ => 1);
    SumOfConstant(255, 1);

    var d := new int[1](_ => 0);
    ok, zero := RunSequentialSum(d);
    assert d[..] == [0];
  }

  /** Runs the parallel sum task on `input` with `worldSize` processes and
      returns what the root writes to output slot 0. */
  method RunParallelSum(input: array<int>, worldSize: nat) returns (ok: bool, out: int)
    requires worldSize > 0
    ensures ok && out == Sum(input[..])
  {
    var output := new int[1];
    var taskData := new SumTaskData([input], [input.Length], [output], [1]);
    var task := new VectorSumMpi.MPIVectorSumParallel(taskData, worldSize);
    ok := task.Validation();
    task.PreProcessing();
    task.Run();
    task.PostProcessing();
    out := output[0];
    assert input[..input.Length] == input[..];
  }

  /** The four parallel cases, for any number of processes: the empty vector
      gives 0, [42] gives 42, a hundred -1s give -100, a hundred zeros give 0. */
  method ParallelSumCases(worldSize: nat) returns (empty: int, single: int, negatives: int, zeros: int)
    requires worldSize > 0
    ensures empty == 0 && single == 42 && negatives == -100 && zeros == 0
  {
    var ok: bool;
    var a := new int[0];
    ok, empty := RunParallelSum(a, worldSize);
    assert a[..] == [];

    var b := new int[1](_ => 42);
    ok, single := RunParallelSum(b, worldSize);
    assert b[..] == [42];

    var c := new int[100](_ => -1);
    ok, negatives := RunParallelSum(c, worldSize);
    assert c[..] == seq(100, _ => -1);
    SumOfConstant(100, -1);

    var d := new int[100](_ => 0);
    ok, zeros := RunParallelSum(d, worldSize);
    assert d[..] == seq(100, _ => 0);
    SumOfConstant(100, 0);
  }

  /** The two Gaussian systems the sequential tests reject: four rows of two
      entries with a three-entry `b`, and a 2x2 matrix with a one-entry `b`;
      and a well-formed 2x2 system that is accepted. */
  lemma GaussianValidationCases()
    ensures !Validate(Some(Buffers(
              [MatrixBuffer([[2.0, 3.0], [5.0, 4.0], [1.0, 6.0], [8.0, 9.0]]), VectorBuffer([1.0, 2.0, 3.0])],
              [VectorBuffer([0.0, 0.0])])))
    ensures !Validate(Some(Buffers(
              [MatrixBuffer([[2.0, 3.0], [5.0, 4.0]]), VectorBuffer([1.0])],
              [VectorBuffer([0.0, 0.0])])))
    ensures Validate(Some(Buffers(
              [MatrixBuffer([[1.0, -1.0], [2.0, 1.0]]), VectorBuffer([-5.0, -7.0])],
              [VectorBuffer([0.0, 0.0])])))
  {
  }

  /** A root holding an empty matrix, beside processes whose task data has
      no buffers at all, returns false before any collective. */
  lemma ParallelRejectsEmptyRootMatrix()
    ensures !ParallelValidate([
              Some(Buffers([MatrixBuffer([]), VectorBuffer([])], [VectorBuffer([])])),
              Some(Buffers([], [])),
              Some(Buffers([], []))])
  {
  }
}
