/**
 * The Rust `generate_series_rs` table function: a planner that insists on
 * `start = ?` and `stop = ?`, and a cursor that counts from start to stop
 * by one.
 *
 * `i64` arithmetic is modelled on unbounded integers; Next requires that its
 * increment stays inside `i64`.
 */
module SeriesRs {
  import opened Wrappers
  import opened Table

  // Columns of `x(value, start hidden, stop hidden, step hidden)`.
  const ColumnValue := 0
  const ColumnStart := 1
  const ColumnStop := 2
  const ColumnStep := 3

  const PlanCost := 100000
  const PlanRows := 100000

  /** A constraint on start or stop, the only columns the planner knows how to take. */
  predicate OnBound(c: IndexConstraint)
  {
    c.columnIdx == ColumnStart || c.columnIdx == ColumnStop
  }

  /** A constraint the planner takes: a usable `=` on start or stop. */
  predicate Binds(c: IndexConstraint)
  {
    OnBound(c) && c.usable && Op(c) == Some(EQ)
  }

  /** Some constraint is on column `col`. */
  predicate HasColumn(cs: seq<IndexConstraint>, col: int)
  {
    exists j :: 0 <= j < |cs| && cs[j].columnIdx == col
  }

  /** The argv slot of a bound column: 1 for start, 2 for stop. */
  function ArgvSlot(c: IndexConstraint): int
  {
    if c.columnIdx == ColumnStart then 1 else 2
  }

  /**
   * `GenerateSeriesTable::best_index`. The first constraint that is not a
   * usable `=` on start or stop decides: one on start or stop gives
   * SQLITE_CONSTRAINT, one on any other column reaches `todo!()`. When every
   * constraint is taken, both bounds must be present; the plan then binds
   * start to argv 1 and stop to argv 2, omits the checks, and sets fixed
   * estimates and idxnum 1.
   */
  method BestIndex(cs: seq<IndexConstraint>) returns (r: PlanOutcome)
    ensures var k := FirstRejected(cs, Binds);
      && (r.Aborted? <==> k < |cs| && !OnBound(cs[k]))
      && (r == Refused(ConstraintError) <==> k < |cs| && OnBound(cs[k]))
      && (r == Refused(GeneralError) <==>
            k == |cs| && !(HasColumn(cs, ColumnStart) && HasColumn(cs, ColumnStop)))
    ensures r.Planned? ==>
      && |r.plan.usage| == |cs|
      && (forall j :: 0 <= j < |cs| ==> r.plan.usage[j] == ConstraintUsage(ArgvSlot(cs[j]), true))
      && r.plan.cost == PlanCost && r.plan.rows == PlanRows
      && r.plan.idxNum == 1 && r.plan.idxStr == None
  {
    var usage := seq(|cs|, _ => Untouched);
    var hasStart, hasStop := false, false;
    var i := 0;
    while i < |cs|
      invariant 0 <= i <= |cs|
      invariant forall j :: 0 <= j < i ==> Binds(cs[j])
      invariant hasStart <==> HasColumn(cs[..i], ColumnStart)
      invariant hasStop <==> HasColumn(cs[..i], ColumnStop)
      invariant |usage| == |cs|
      invariant forall j :: 0 <= j < i ==> usage[j] == ConstraintUsage(ArgvSlot(cs[j]), true)
    {
      var c := cs[i];
      assert cs[..i + 1] == cs[..i] + [c];
      if c.columnIdx == ColumnStart {
        if c.usable && Op(c) == Some(EQ) {
          usage := usage[i := ConstraintUsage(1, true)];
          hasStart := true;
        } else {
          FirstRejectedUnique(cs, Binds, i);
          return Refused(ConstraintError);
        }
      } else if c.columnIdx == ColumnStop {
        if c.usable && Op(c) == Some(EQ) {
          usage := usage[i := ConstraintUsage(2, true)];
          hasStop := true;
        } else {
          FirstRejectedUnique(cs, Binds, i);
          return Refused(ConstraintError);
        }
      } else {
        FirstRejectedUnique(cs, Binds, i);
        return Aborted;
      }
      i := i + 1;
    }
    FirstRejectedUnique(cs, Binds, |cs|);
    assert cs[..i] == cs;
    if !hasStart || !hasStop {
      return Refused(GeneralError);
    }
    r := Planned(IndexPlan(usage, PlanCost, PlanRows, 1, None));
  }

  /** Any refused or unusable bound makes planning fail, wherever it stands in the list. */
  lemma UnusableBoundNeverPlans(cs: seq<IndexConstraint>, j: int)
    requires 0 <= j < |cs| && !Binds(cs[j])
    ensures FirstRejected(cs, Binds) <= j
  {
  }

  // ---------------------------------------------------------------------
  // Cursor
  // ---------------------------------------------------------------------

  /**
   * The values a scan from `value` up to `max` emits: Next adds one, Eof is
   * `value > max`. The addition is unbounded here; Rust's `i64` one overflows
   * after the row `max` when max is the largest `i64`.
   */
  function Scan(value: int, max: int): seq<int>
    decreases max - value
  {
    if value > max then [] else [value] + Scan(value + 1, max)
  }

  /** The scan emits `value, value+1, ..., max`, and nothing when `value > max`. */
  lemma {:induction false} ScanIsRange(value: int, max: int)
    ensures |Scan(value, max)| == if value <= max then max - value + 1 else 0
    ensures forall k :: 0 <= k < |Scan(value, max)| ==> Scan(value, max)[k] == value + k
    decreases max - value
  {
    if value <= max {
      ScanIsRange(value + 1, max);
      var rest := Scan(value + 1, max);
      assert Scan(value, max) == [value] + rest;
      forall k | 0 <= k < |Scan(value, max)|
        ensures Scan(value, max)[k] == value + k
      {
        if k > 0 {
          assert Scan(value, max)[k] == rest[k - 1];
        }
      }
    }
  }

  /** The result `column` writes: an integer, or nothing. */
  datatype ColumnResult = Wrote(v: int) | NoResult

  /** `GenerateSeriesCursor`: rowid, the current value, the bounds and an unused step. */
  class GenerateSeriesCursor {
    var rowid: int
    var value: int
    var min: int
    var max: int
    var step: int

    /** `GenerateSeriesCursor::new`: every field zero. */
    constructor ()
      ensures rowid == 0 && value == 0 && min == 0 && max == 0 && step == 0
    {
      rowid, value, min, max, step := 0, 0, 0, 0, 0;
    }

    /** The values the rest of the scan emits. */
    function Remaining(): seq<int>
      reads this
    {
      Scan(value, max)
    }

    /**
     * `filter`: min from argv 1 and max from argv 2 (each an `expect` that
     * panics when the argument is missing), then value = min. Rowid and step
     * are never written.
     */
    method Filter(values: seq<int>) returns (outcome: FilterOutcome)
      modifies this
      ensures outcome == if |values| >= 2 then Filtered else FilterPanicked
      ensures outcome == Filtered ==>
        && min == values[0] && max == values[1] && value == values[0]
        && Remaining() == Scan(values[0], values[1])
      ensures rowid == old(rowid) && step == old(step)
    {
      if |values| < 1 {
        return FilterPanicked;
      }
      min := values[0];
      if |values| < 2 {
        return FilterPanicked;
      }
      max := values[1];
      value := min;
      outcome := Filtered;
    }

    /** `next`: one more; the scan loses its first value. */
    method Next()
      requires value + 1 <= Int64Max
      modifies this
      ensures value == old(value) + 1
      ensures rowid == old(rowid) && min == old(min) && max == old(max) && step == old(step)
      ensures !old(Eof()) ==> Remaining() == old(Remaining())[1..]
    {
      value := value + 1;
    }

    /** `eof`: the scan has run out exactly when nothing remains. */
    function Eof(): (b: bool)
      reads this
      ensures b <==> Remaining() == []
    {
      value > max
    }

    /** `column`: value, start and stop; the step column and unknown columns write nothing. */
    function Column(i: int): (r: ColumnResult)
      reads this
      ensures r.Wrote? <==> i in {ColumnValue, ColumnStart, ColumnStop}
      ensures i == ColumnValue && !Eof() ==> r == Wrote(Remaining()[0])
      ensures i == ColumnStart ==> r == Wrote(min)
      ensures i == ColumnStop ==> r == Wrote(max)
    {
      if i == ColumnValue then Wrote(value)
      else if i == ColumnStart then Wrote(min)
      else if i == ColumnStop then Wrote(max)
      else NoResult
    }

    /** `rowid`: the field, which only the constructor sets. */
    function Rowid(): int
      reads this
    {
      rowid
    }
  }
}
