# Vector-sum reduction and Gaussian-solver admission checks, in Dafny

This project models the integer and structural logic of two teaching tasks of
a parallel-programming course repository. Each task comes as a sequential
baseline and a message-passing (MPI) parallel version. Each runs through the
harness's four phases: `validation`, `pre_processing`, `run` and
`post_processing`.

* **Vector sum** (`shishkarev_a_sum_of_vector_elements`). The sequential
  tasks copy the input buffer into a field, fold it with `+` from zero, and
  write the single result to output slot 0. The parallel task splits `n`
  elements into `W` contiguous chunks (`send_counts` and `disp`), scatters
  them, sums each chunk and reduces the partial sums onto the root. The model
  proves four things about this:
  * the partition arithmetic;
  * that gathering the chunks gives back the input;
  * that the reduced total equals the sequential fold whatever `W` is;
  * the concrete results the functional tests assert.
* **Gaussian elimination with horizontal strips**
  (`shishkarev_a_gaussian_method_horizontal_strip_pattern`). Only three parts
  are modelled:
  * the input-shape validator, as one pure function `Validate` proved equal
    to a declarative definition `Admissible`;
  * the parallel validator's combination of per-process 0/1 flags;
  * the block-with-remainder row split at the start of the parallel `run()`.

  The sequential task class models the copy of the inputs and where `run()`
  puts a solution of which length.

Modules: `Fold` (the `+`-fold and `std::accumulate`), `TaskData` (the
harness's buffers for the sum tasks), `BlockPartition`, `VectorSumSeq`,
`VectorSumMpi`, `GaussianValidation`, `GaussianRowSplit`, `GaussianSeq`,
`Scenarios` (the functional tests' cases run through the task objects),
`Arith`.

Modelling decisions:

* Sums are over unbounded `int`.
* Matrix entries are `real`: validation only compares them with `0.0`.
* The MPI collectives are sequential functions over all ranks at once:
  * the broadcast of `n` means every rank uses the same `n`;
  * `scatterv` is `BlockPartition.Scatterv`;
  * `reduce` with `std::plus` is `Fold.Sum` (or `FlagSum`) over the
    per-rank values.
* `MPIVectorSumParallel` stands for the whole process group. The fields the
  source keeps per process (`local_vector`, `local_sum`) are sequences
  indexed by rank.
* A task-data buffer is the value behind its pointer. Consider a buffer
  whose contents are not what the `reinterpret_cast` expects, for example
  input 0 not being a matrix. The validator treats it like a null pointer.
* Rows of the parallel Gaussian task are split into contiguous blocks, and
  the last process also takes the remainder; the distribution is not
  cyclic.
* Admission of a Gaussian system checks only the shape of the matrix, `b`
  and the output, and the diagonal; no determinant or rank is computed.
* The comment at `ops_mpi.cpp:180` says all processes must pass, but the
  code accepts when the sum of flags is positive, i.e. when any flag is 1.
  Since the root's own flag is always 1 when the reduce is reached, the
  parallel verdict equals the root's shape checks.
  `GaussianValidation.ParallelValidate` states this.
* The MPI Gaussian file defines `MPIGaussianHorizontalSequential::validation`
  twice. The model follows the stricter second definition, which has the
  diagonal check. That definition is identical to the seq file's
  `validation`, so both are `GaussianValidation.Validate`.

## Model

| member | source | states |
|---|---|---|
| `Fold.Accumulate` | tasks/seq/shishkarev_a_sum_of_vector_elements/src/ops_seq.cpp:37 | `std::accumulate` from 0 returns the left `+`-fold of the whole vector |
| `Fold.SumAppend` | tasks/mpi/shishkarev_a_sum_of_vector_elements/src/ops_mpi.cpp:106-109 | the sum of a concatenation is the sum of the parts' sums (why partial sums may be added) |
| `Fold.SumOfConstant` | tasks/seq/shishkarev_a_sum_of_vector_elements/func_tests/main.cpp:73-113 | `n` copies of `c` sum to `n * c` (the all-ones test vectors) |
| `VectorSumSeq.VectorSumSequential.constructor` | tasks/seq/shishkarev_a_sum_of_vector_elements/include/ops_seq.hpp:15-23 | a new task holds its task data and an empty `input_data`; `result` is left unconstrained, as the uninitialised member is |
| `VectorSumSeq.VectorSumSequential.Validation` | tasks/seq/shishkarev_a_sum_of_vector_elements/src/ops_seq.cpp:23-30 | true iff `inputs_count[0] > 0` and `outputs_count[0] == 1` |
| `VectorSumSeq.VectorSumSequential.PreProcessing` | tasks/seq/shishkarev_a_sum_of_vector_elements/src/ops_seq.cpp:7-20 | `input_data` becomes exactly the first `inputs_count[0]` input elements, in order; `result` is reset to zero |
| `VectorSumSeq.VectorSumSequential.Run` | tasks/seq/shishkarev_a_sum_of_vector_elements/src/ops_seq.cpp:32-39 | `result` is the sum of `input_data`, which is unchanged |
| `VectorSumSeq.VectorSumSequential.PostProcessing` | tasks/seq/shishkarev_a_sum_of_vector_elements/src/ops_seq.cpp:41-49 | output slot 0 receives `result`; every other slot of the output buffer is unchanged |
| `VectorSumMpi.MPIVectorSumSequential.constructor` | tasks/mpi/shishkarev_a_sum_of_vector_elements/include/ops_mpi.hpp:20-30 | a new task holds its task data, an empty vector and `result == 0` (`int result{}`) |
| `VectorSumMpi.MPIVectorSumSequential.Validation` | tasks/mpi/shishkarev_a_sum_of_vector_elements/src/ops_mpi.cpp:26-31 | true iff `outputs_count[0] == 1`; the input count is not checked |
| `VectorSumMpi.MPIVectorSumSequential.PreProcessing` | tasks/mpi/shishkarev_a_sum_of_vector_elements/src/ops_mpi.cpp:11-24 | the element-by-element loop leaves `input_vector` equal to the first `inputs_count[0]` input ints in order; `result` is 0 |
| `VectorSumMpi.MPIVectorSumSequential.Run` | tasks/mpi/shishkarev_a_sum_of_vector_elements/src/ops_mpi.cpp:33-39 | `result` is the sum of `input_vector`, which is unchanged |
| `VectorSumMpi.MPIVectorSumSequential.PostProcessing` | tasks/mpi/shishkarev_a_sum_of_vector_elements/src/ops_mpi.cpp:41-47 | output slot 0 receives `result`, nothing else changes |
| `VectorSumMpi.MPIVectorSumParallel.constructor` | tasks/mpi/shishkarev_a_sum_of_vector_elements/include/ops_mpi.hpp:34-45 | a new task holds its task data, empty input and local vectors and `result == 0` (`int result{}`); each `local_sum` is left unconstrained, as the uninitialised member is |
| `VectorSumMpi.MPIVectorSumParallel.Validation` | tasks/mpi/shishkarev_a_sum_of_vector_elements/src/ops_mpi.cpp:94-98 | on the root: true iff `outputs_count[0] == 1` |
| `VectorSumMpi.MPIVectorSumParallel.PreProcessing` | tasks/mpi/shishkarev_a_sum_of_vector_elements/src/ops_mpi.cpp:49-92 | the root copies the input; rank `p`'s local vector is the `p`-th block chunk of it, of length `send_counts[p]`; every `local_sum` and `result` start at 0 |
| `VectorSumMpi.MPIVectorSumParallel.Run` | tasks/mpi/shishkarev_a_sum_of_vector_elements/src/ops_mpi.cpp:102-111 | each `local_sum` is its chunk's sum, and the reduced `result` equals the sum of the whole input |
| `VectorSumMpi.MPIVectorSumParallel.PostProcessing` | tasks/mpi/shishkarev_a_sum_of_vector_elements/src/ops_mpi.cpp:113-121 | the root writes `result` to output slot 0, nothing else changes |
| `BlockPartition.ComputePartition` | tasks/mpi/shishkarev_a_sum_of_vector_elements/src/ops_mpi.cpp:68-81 | the loop yields the counts `n/W` (+1 for the first `n%W`) and offsets with `disp[0] == 0`, `disp[i] == disp[i-1] + send_counts[i-1]`, last chunk ending at `n` |
| `BlockPartition.ChunkStart` | tasks/mpi/shishkarev_a_sum_of_vector_elements/src/ops_mpi.cpp:78-80 | every chunk `[disp[i], disp[i] + send_counts[i])` lies inside `[0, n)`, and the offset after the last chunk is `n` |
| `BlockPartition.ChunkStartStep` | tasks/mpi/shishkarev_a_sum_of_vector_elements/src/ops_mpi.cpp:78-80 | each chunk starts where the previous one ends |
| `BlockPartition.ChunkSizesBalanced` | tasks/mpi/shishkarev_a_sum_of_vector_elements/src/ops_mpi.cpp:69-77 | every count is `n/W` or `n/W + 1`; it is `n/W + 1` exactly for indices below `n%W`; counts never grow with the index and differ by at most one |
| `BlockPartition.StartsArePrefixSums` | tasks/mpi/shishkarev_a_sum_of_vector_elements/src/ops_mpi.cpp:72-80 | `disp[k]` is the sum of `send_counts[0..k)` |
| `BlockPartition.CountsSumToLength` | tasks/mpi/shishkarev_a_sum_of_vector_elements/src/ops_mpi.cpp:69-80 | the counts sum to `n` |
| `BlockPartition.ChunksDisjoint` | tasks/mpi/shishkarev_a_sum_of_vector_elements/src/ops_mpi.cpp:74-81 | an earlier chunk ends at or before a later one starts |
| `BlockPartition.ChunkCovering` | tasks/mpi/shishkarev_a_sum_of_vector_elements/src/ops_mpi.cpp:74-81 | a position at or after chunk `from`'s start lies in some chunk at or after `from` |
| `BlockPartition.ChunksTile` | tasks/mpi/shishkarev_a_sum_of_vector_elements/src/ops_mpi.cpp:74-87 | every position of `[0, n)` lies in exactly one chunk |
| `BlockPartition.Scatterv` | tasks/mpi/shishkarev_a_sum_of_vector_elements/src/ops_mpi.cpp:87 | process `i` receives `send_counts[i]` elements, its `j`-th being input element `disp[i] + j` |
| `BlockPartition.GatherPrefix` | tasks/mpi/shishkarev_a_sum_of_vector_elements/src/ops_mpi.cpp:87 | the first `k` scattered chunks, laid end to end, are the input up to chunk `k`'s offset |
| `BlockPartition.ScatterGatherRoundTrip` | tasks/mpi/shishkarev_a_sum_of_vector_elements/src/ops_mpi.cpp:87 | gathering the scattered chunks gives back the input vector |
| `BlockPartition.SumOfLocalSums` | tasks/mpi/shishkarev_a_sum_of_vector_elements/src/ops_mpi.cpp:106-109 | adding the local sums equals summing the chunks laid end to end |
| `BlockPartition.WorkerCountInvariance` | tasks/mpi/shishkarev_a_sum_of_vector_elements/src/ops_mpi.cpp:102-111 | the reduce of all local sums equals the sequential fold of the whole vector, for every `W > 0` |
| `BlockPartition.SameTotalForAnyWorldSize` | tasks/mpi/shishkarev_a_sum_of_vector_elements/src/ops_mpi.cpp:102-111 | any two process counts give the same total |
| `GaussianValidation.AllRowsHaveLength` | tasks/mpi/shishkarev_a_gaussian_method_horizontal_strip_pattern/src/ops_mpi.cpp:76-80 | the row scan succeeds iff every row has length `n` |
| `GaussianValidation.DiagonalNonZeroFrom` | tasks/mpi/shishkarev_a_gaussian_method_horizontal_strip_pattern/src/ops_mpi.cpp:93-98 | the diagonal scan from `i` succeeds iff no diagonal entry at or after `i` is zero |
| `GaussianValidation.Validate` | tasks/mpi/shishkarev_a_gaussian_method_horizontal_strip_pattern/src/ops_mpi.cpp:56-101 | true iff: task data present with at least two inputs and an output; non-empty square matrix; `b` and output of length `n`; no zero diagonal entry; false when task data or slots are missing |
| `GaussianValidation.NonSquareRejected` | tasks/mpi/shishkarev_a_gaussian_method_horizontal_strip_pattern/src/ops_mpi.cpp:76-80 | any row whose length differs from the row count makes validation fail |
| `GaussianValidation.ZeroDiagonalRejected` | tasks/mpi/shishkarev_a_gaussian_method_horizontal_strip_pattern/src/ops_mpi.cpp:93-98 | any zero diagonal entry makes validation fail |
| `GaussianValidation.LocalFlag` | tasks/mpi/shishkarev_a_gaussian_method_horizontal_strip_pattern/src/ops_mpi.cpp:162-171 | each flag is 0 or 1; it is 0 exactly on a non-root process whose matrix is missing or empty |
| `GaussianValidation.Flags` | tasks/mpi/shishkarev_a_gaussian_method_horizontal_strip_pattern/src/ops_mpi.cpp:162-171 | one 0/1 flag per process |
| `GaussianValidation.FlagSumPositiveIffAny` | tasks/mpi/shishkarev_a_gaussian_method_horizontal_strip_pattern/src/ops_mpi.cpp:173-181 | the reduced flag sum is positive iff some flag is 1 ("any", not "all") |
| `GaussianValidation.FlagSum` | tasks/mpi/shishkarev_a_gaussian_method_horizontal_strip_pattern/src/ops_mpi.cpp:173-175 | the reduced sum of the flags is zero iff every flag is zero, and no flag exceeds it |
| `GaussianValidation.ParallelValidate` | tasks/mpi/shishkarev_a_gaussian_method_horizontal_strip_pattern/src/ops_mpi.cpp:118-182 | the verdict is true iff the root's task data is admissible; a root that fails its checks returns false whatever the other processes hold; the other flags never change the verdict |
| `GaussianValidation.ParallelVerdictIsAny` | tasks/mpi/shishkarev_a_gaussian_method_horizontal_strip_pattern/src/ops_mpi.cpp:174-181 | the verdict is true iff the root's checks pass and some process's flag is 1 |
| `GaussianRowSplit.RowSplit` | tasks/mpi/shishkarev_a_gaussian_method_horizontal_strip_pattern/src/ops_mpi.cpp:187-194 | `rows_per_process * W + extra_rows == total` and `extra_rows < W` |
| `GaussianRowSplit.BlocksContiguous` | tasks/mpi/shishkarev_a_gaussian_method_horizontal_strip_pattern/src/ops_mpi.cpp:203-212 | block `p` (starting at `p * rows_per_process`) ends where block `p+1` starts; the last block, with `rows_per_process + extra_rows` rows, ends exactly at `total` |
| `GaussianRowSplit.BlockRowsAddUp` | tasks/mpi/shishkarev_a_gaussian_method_horizontal_strip_pattern/src/ops_mpi.cpp:203-212 | the blocks before `k` hold exactly the rows before block `k`'s start; all blocks together hold `total` rows |
| `GaussianRowSplit.BlocksDisjoint` | tasks/mpi/shishkarev_a_gaussian_method_horizontal_strip_pattern/src/ops_mpi.cpp:203-212 | an earlier process's block ends at or before a later one's starts |
| `GaussianRowSplit.OwnerHoldsRow` | tasks/mpi/shishkarev_a_gaussian_method_horizontal_strip_pattern/src/ops_mpi.cpp:202-217 | every row lies in exactly one process's block (contiguous, not cyclic) |
| `GaussianRowSplit.SendPlanTiles` | tasks/mpi/shishkarev_a_gaussian_method_horizontal_strip_pattern/src/ops_mpi.cpp:203-208 | the blocks sent to processes `1..W-1` follow one another without gap or overlap: the first starts at `rows_per_process`, the last ends at `total` |
| `GaussianRowSplit.PlanSends` | tasks/mpi/shishkarev_a_gaussian_method_horizontal_strip_pattern/src/ops_mpi.cpp:202-208 | the root's send loop produces, for `proc = 1..W-1`, the block starting at `proc * rows_per_process` with `num_rows` rows, and the blocks end at `total` |
| `GaussianSeq.GaussianSequentialTask.constructor` | tasks/seq/shishkarev_a_gaussian_method_horizontal_strip_pattern/include/ops_seq.hpp:29-39 | a new task holds its task data (possibly null) and an empty `matrix` and `vector_b` |
| `GaussianSeq.GaussianSequentialTask.Validation` | tasks/seq/shishkarev_a_gaussian_method_horizontal_strip_pattern/src/ops_seq.cpp:21-66 | true iff the task data is present and admissible (same checks as the MPI sequential validator) |
| `GaussianSeq.GaussianSequentialTask.PreProcessing` | tasks/seq/shishkarev_a_gaussian_method_horizontal_strip_pattern/src/ops_seq.cpp:13-19 | `matrix` and `vector_b` become the input matrix and `b`, unchanged |
| `GaussianSeq.GaussianSequentialTask.Run` | tasks/seq/shishkarev_a_gaussian_method_horizontal_strip_pattern/src/ops_seq.cpp:68-105 | output 0 is replaced by a solution vector with one entry per matrix row; the other outputs are untouched |
| `Scenarios.RunSequentialSum` | tasks/seq/shishkarev_a_sum_of_vector_elements/func_tests/main.cpp:8-28 | the four phases on a staged vector: validation passes iff it is non-empty, and output 0 is then its sum |
| `Scenarios.SequentialSumCases` | tasks/seq/shishkarev_a_sum_of_vector_elements/func_tests/main.cpp:8-135 | [10] gives 10, 75836 ones give 75836, 255 ones give 255, [0] gives 0 |
| `Scenarios.RunParallelSum` | tasks/mpi/shishkarev_a_sum_of_vector_elements/func_tests/main.cpp:39-63 | the four phases of the parallel task on any number of processes: validation passes and the root's output is the sum |
| `Scenarios.ParallelSumCases` | tasks/mpi/shishkarev_a_sum_of_vector_elements/func_tests/main.cpp:11-145 | for every process count: empty gives 0, [42] gives 42, 100 × -1 gives -100, 100 zeros give 0 |
| `Scenarios.GaussianValidationCases` | tasks/seq/shishkarev_a_gaussian_method_horizontal_strip_pattern/func_tests/main.cpp:153-199 | a 4×2 matrix with a 3-entry `b` and a 2×2 matrix with a 1-entry `b` are rejected; in addition, an example of this model's own (not taken from the tests), the well-formed system `[[1, -1], [2, 1]]` with `b = [-5, -7]`, is accepted |
| `Scenarios.ParallelRejectsEmptyRootMatrix` | tasks/mpi/shishkarev_a_gaussian_method_horizontal_strip_pattern/src/ops_mpi.cpp:122-134 | a root with an empty matrix is rejected while the other processes hold task data without buffers, as the tests stage them |

## Left out

- Forward elimination and back-substitution arithmetic: IEEE-754 double
  numerics, only checked to a 1e-6 tolerance, which a `real` model would not
  reproduce. This covers the seq `run()` at `ops_seq.cpp:75-100` and the MPI
  `run()` at `ops_mpi.cpp:219-240`.
- GaussianSeq.GaussianSequentialTask.Run: the entries of the solution are a
  parameter (`solutionEntry`); only the length and placement of the solution
  vector are modelled. The in-place updates of `matrix` and `vector_b` are not
  modelled.
- The final `reduce` of the parallel Gaussian `run()` (`ops_mpi.cpp:242`)
  adds up every process's full solution vector. It is not modelled, and
  nothing claims its result is the solution.
- The point-to-point sends and receives of the Gaussian row blocks
  (`ops_mpi.cpp:206-216`) are not modelled; only the block boundaries are. On
  the root, the local part is row 0 and the whole of `b`, not its block. A
  send of `num_rows * n` doubles that starts at a single row's storage is not
  checked either.
- Message passing in general: the broadcasts, scatter and reduces are
  modelled as sequential functions over all ranks, so hangs are not
  modelled.
- GaussianValidation.ParallelValidate: a root that passes its checks while
  another process has fewer than two inputs or no output is excluded. That
  process returns false before the reduce and the root would block in it,
  so the source gives no verdict there. The verdicts that non-root
  processes return are not modelled either.
- The non-root path of `MPIVectorSumParallel::validation`: it ends in a bare
  `return;` and is not well-formed.
- The first definition of `MPIGaussianHorizontalSequential::validation`
  (`ops_mpi.cpp:21-54`). It is a duplicate of the second one without the
  diagonal check.
- The `pre_processing`/`post_processing` of the MPI Gaussian tasks, which
  copy the inputs on the root and write `res` to the output.
- `determinant`, `matrix_rank` and the `MPIGaussHorizontal*` classes are not
  part of this model. Their header declares them, but no implementation is
  given, and the flat-matrix tests that use them are not modelled either.
- Fixed-width arithmetic: sums are over unbounded integers. The `uint8_t`,
  `int32_t` and `int64_t` wrap-around and the `float`/`double` instantiations
  of `VectorSumSequential<T>` are not modelled. The same goes for the
  unsigned/`int` conversions of `n` and the counts.
- Double comparison: a NaN diagonal entry passes the `== 0.0` check in the
  source, and `real` has no NaN.
- The seq Gaussian tests that expect rejection (`func_tests/main.cpp:153-199`)
  stage `b` and the output as raw element pointers (`vector_b.data()`,
  `output_data.data()`), where `validation` casts them to
  `std::vector<double>*`. Reading such a buffer is undefined behaviour, so
  `Scenarios.GaussianValidationCases` stages properly typed vectors instead.
- Raw `reinterpret_cast` staging: the model reads buffers as typed values.
  Also left out: `internal_order_test`, the performance harness and timers,
  the random test-data generators, and the `std::cout` warning printed on a
  zero diagonal entry.
