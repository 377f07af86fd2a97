/** The row split at the start of the parallel Gaussian `run()`: the root
    divides `total` rows into `worldSize` contiguous blocks of
    `rowsPerProcess` rows, and the last process also takes the `extraRows`
    left over. This is a block-with-remainder distribution, not a cyclic one. */
module GaussianRowSplit {
  import opened Arith

  /** `rows_per_process` and `extra_rows`. */
  function RowSplit(total: nat, worldSize: nat): (split: (nat, nat))
    requires worldSize > 0
    ensures split.0 * worldSize + split.1 == total
    ensures split.1 < worldSize
  {
    (total / worldSize, total % worldSize)
  }

  function RowsPerProcess(total: nat, worldSize: nat): nat
    requires worldSize > 0
  {
    RowSplit(total, worldSize).0
  }

  function ExtraRows(total: nat, worldSize: nat): nat
    requires worldSize > 0
  {
    RowSplit(total, worldSize).1
  }

  /** First row of process `p`'s block. */
  function StartRow(p: nat, total: nat, worldSize: nat): nat
    requires worldSize > 0
  {
    p * RowsPerProcess(total, worldSize)
  }

  /** Number of rows in process `p`'s block. */
  function NumRows(p: nat, total: nat, worldSize: nat): nat
    requires worldSize > 0
  {
    if p == worldSize - 1 then RowsPerProcess(total, worldSize) + ExtraRows(total, worldSize)
    else RowsPerProcess(total, worldSize)
  }

  /** A block of rows sent to one process. */
  datatype Block = Block(start: nat, rows: nat)

  /** Each block ends where the next one starts, and the last block ends
      exactly at row `total`. */
  lemma BlocksContiguous(p: nat, total: nat, worldSize: nat)
    requires worldSize > 0 && p < worldSize
    ensures p + 1 < worldSize ==>
              StartRow(p, total, worldSize) + NumRows(p, total, worldSize) == StartRow(p + 1, total, worldSize)
    ensures p + 1 == worldSize ==>
              StartRow(p, total, worldSize) + NumRows(p, total, worldSize) == total
  {
    var q := RowsPerProcess(total, worldSize);
    assert (p + 1) * q == p * q + q;
  }

  /** The rows in the blocks of processes `0 .. k-1`. */
  function RowsBefore(k: nat, total: nat, worldSize: nat): nat
    requires worldSize > 0
  {
    if k == 0 then 0 else RowsBefore(k - 1, total, worldSize) + NumRows(k - 1, total, worldSize)
  }

  /** The blocks of the first `k` processes cover exactly the rows before
      block `k`; all `worldSize` blocks together hold all `total` rows. */
  lemma {:induction false} BlockRowsAddUp(k: nat, total: nat, worldSize: nat)
    requires worldSize > 0 && k <= worldSize
    ensures k < worldSize ==> RowsBefore(k, total, worldSize) == StartRow(k, total, worldSize)
    ensures k == worldSize ==> RowsBefore(k, total, worldSize) == total
  {
    if k > 0 {
      BlockRowsAddUp(k - 1, total, worldSize);
      BlocksContiguous(k - 1, total, worldSize);
    }
  }

  /** The process whose block holds row `r`. */
  function Owner(r: nat, total: nat, worldSize: nat): nat
    requires worldSize > 0
  {
    var q := RowsPerProcess(total, worldSize);
    if q == 0 || r / q >= worldSize - 1 then worldSize - 1 else r / q
  }

  /** Earlier blocks end at or before later ones start. */
  lemma BlocksDisjoint(p: nat, p': nat, total: nat, worldSize: nat)
    requires worldSize > 0 && p < p' < worldSize
    ensures StartRow(p, total, worldSize) + NumRows(p, total, worldSize) <= StartRow(p', total, worldSize)
  {
    var q := RowsPerProcess(total, worldSize);
    BlocksContiguous(p, total, worldSize);
    MulMonotone(p + 1, p', q);
  }

  lemma DivBounds(r: nat, q: nat)
    requires q > 0
    ensures (r / q) * q <= r < (r / q) * q + q
  {
  }

  /** Every row of `[0, total)` lies in the block of `Owner`, and in no other. */
  lemma OwnerHoldsRow(r: nat, total: nat, worldSize: nat)
    requires worldSize > 0 && r < total
    ensures Owner(r, total, worldSize) < worldSize
    ensures StartRow(Owner(r, total, worldSize), total, worldSize) <= r
              < StartRow(Owner(r, total, worldSize), total, worldSize) + NumRows(Owner(r, total, worldSize), total, worldSize)
    ensures forall p :: 0 <= p < worldSize &&
              StartRow(p, total, worldSize) <= r < StartRow(p, total, worldSize) + NumRows(p, total, worldSize)
              ==> p == Owner(r, total, worldSize)
  {
    var q := RowsPerProcess(total, worldSize);
    var o := Owner(r, total, worldSize);
    BlocksContiguous(worldSize - 1, total, worldSize);
    if q != 0 {
      var d := r / q;
      DivBounds(r, q);
      if d >= worldSize - 1 {
        MulMonotone(worldSize - 1, d, q);
      } else {
        BlocksContiguous(d, total, worldSize);
      }
    }
    forall p | 0 <= p < worldSize &&
               StartRow(p, total, worldSize) <= r < StartRow(p, total, worldSize) + NumRows(p, total, worldSize)
      ensures p == o
    {
      if p < o {
        BlocksDisjoint(p, o, total, worldSize);
      } else if o < p {
        BlocksDisjoint(o, p, total, worldSize);
      }
    }
  }

  /** The blocks the root sends, in order, to processes `1 .. worldSize-1`. */
  ghost predicate IsSendPlan(plan: seq<Block>, total: nat, worldSize: nat)
    requires worldSize > 0
  {
    && |plan| == worldSize - 1
    && forall k :: 0 <= k < |plan| ==>
         plan[k] == Block(StartRow(k + 1, total, worldSize), NumRows(k + 1, total, worldSize))
  }

  /** The blocks sent to processes `1 .. worldSize-1` follow one another
      without gap or overlap, all but the last hold `rows_per_process` rows,
      and together with the root's first `rows_per_process` rows they reach
      exactly row `total`. */
  lemma SendPlanTiles(plan: seq<Block>, total: nat, worldSize: nat)
    requires worldSize > 0 && IsSendPlan(plan, total, worldSize)
    ensures forall k :: 0 <= k < |plan| - 1 ==> plan[k].rows == RowsPerProcess(total, worldSize)
    ensures forall k :: 0 <= k < |plan| - 1 ==> plan[k].start + plan[k].rows == plan[k + 1].start
    ensures |plan| > 0 ==> plan[0].start == RowsPerProcess(total, worldSize)
    ensures |plan| > 0 ==> plan[|plan| - 1].start + plan[|plan| - 1].rows == total
  {
    forall k | 0 <= k < |plan| - 1
      ensures plan[k].start + plan[k].rows == plan[k + 1].start
    {
      BlocksContiguous(k + 1, total, worldSize);
    }
    if |plan| > 0 {
      assert plan[0].start == 1 * RowsPerProcess(total, worldSize);
      BlocksContiguous(worldSize - 1, total, worldSize);
    }
  }

  /** The root's send loop: one block for each process `1 .. worldSize-1`,
      starting at `proc * rows_per_process`; the last one also takes the
      extra rows. */
  method PlanSends(total: nat, worldSize: nat) returns (plan: seq<Block>)
    requires worldSize > 0
    ensures IsSendPlan(plan, total, worldSize)
    ensures |plan| == worldSize - 1
    ensures |plan| > 0 ==> plan[0].start == RowsPerProcess(total, worldSize)
    ensures |plan| > 0 ==> plan[|plan| - 1].start + plan[|plan| - 1].rows == total
  {
    var rowsPerProcess := total / worldSize;
    var extraRows := total % worldSize;
    plan := [];
    var proc := 1;
    while proc < worldSize
      invariant 1 <= proc <= worldSize
      invariant |plan| == proc - 1
      invariant forall k :: 0 <= k < |plan| ==>
                  plan[k] == Block(StartRow(k + 1, total, worldSize), NumRows(k + 1, total, worldSize))
    {
      var startRow := proc * rowsPerProcess;
      var numRows := if proc == worldSize - 1 then rowsPerProcess + extraRows else rowsPerProcess;
      plan := plan + [Block(startRow, numRows)];
      proc := proc + 1;
    }
    SendPlanTiles(plan, total, worldSize);
  }
}
