/**
 * The `generate_series` virtual table written in Go: the planner
 * (`SeriesTable.BestIndex`) and the cursor (`SeriesCursor`).
 *
 * Go's `int64` arithmetic is modelled on unbounded integers. Filter's
 * descending start wraps around as Go's does (`GoSub`); Next requires the
 * next value and rowid to stay inside the `int64` range, and the closed-form
 * scans (`Trace`) step in unbounded arithmetic. Go's `%` truncates
 * toward zero and is written out as `GoRem`.
 */
module SeriesGo {
  import opened Wrappers
  import opened Arith

  // Column numbers of `series(value, start hidden, stop hidden, step hidden)`.
  const ColumnValue := 0
  const ColumnStart := 1
  const ColumnStop := 2
  const ColumnStep := 3

  /** SQLITE_CONSTRAINT, the error BestIndex returns for an unusable plan. */
  const SqliteConstraint := 19

  /** EstimatedRows of an open-ended scan (the largest `int32`). */
  const HugeRows := 2147483647

  /** Default `stop` when no stop constraint is usable. */
  const DefaultMax := 0xffff_ffff

  const Int64Min := -0x8000_0000_0000_0000
  const Int64Max := 0x7fff_ffff_ffff_ffff

  predicate IsInt64(x: int) { Int64Min <= x <= Int64Max }

  /** Go's `int64` result of an exact value: wrapped around modulo 2^64 into the `int64` range. */
  function Wrap64(x: int): (r: int)
    ensures IsInt64(r)
    ensures IsInt64(x) ==> r == x
  {
    (x - Int64Min) % 0x1_0000_0000_0000_0000 + Int64Min
  }

  /** Go's `a - b` on `int64` operands: the exact difference, wrapped. */
  function GoSub(a: int, b: int): (r: int)
    ensures IsInt64(r)
    ensures IsInt64(a - b) ==> r == a - b
  {
    Wrap64(a - b)
  }

  /** The wrapped value differs from the exact one by a multiple of 2^64. */
  lemma Wrap64Congruent(x: int)
    ensures (Wrap64(x) - x) % 0x1_0000_0000_0000_0000 == 0
  {
  }

  /** Go's `a % b`: the remainder truncated toward zero (its sign follows `a`). */
  function GoRem(a: int, b: int): (r: int)
    requires b != 0
    ensures (if a < 0 then -a else a) == (if b < 0 then -b else b) * ((if a < 0 then -a else a) / (if b < 0 then -b else b)) + (if r < 0 then -r else r)
    ensures a >= 0 ==> 0 <= r
    ensures a < 0 ==> r <= 0
  {
    var m := (if a < 0 then -a else a) % (if b < 0 then -b else b);
    if a < 0 then -m else m
  }

  /** Go's `%` and Dafny's Euclidean `%` agree on a non-negative dividend ... */
  lemma GoRemOfNonNegative(a: int, b: int)
    requires a >= 0 && b > 0
    ensures GoRem(a, b) == a % b
  {
  }

  /** ... and differ on a negative one. */
  lemma GoRemOfNegative()
    ensures GoRem(-1, 2) == -1 && -1 % 2 == 1
  {
  }

  // ---------------------------------------------------------------------
  // Planner
  // ---------------------------------------------------------------------

  /** One constraint offered by the engine: the column it is on and whether it is usable. */
  datatype Constraint = Constraint(column: int, usable: bool)

  /** One ORDER BY term. */
  datatype OrderTerm = OrderTerm(column: int, desc: bool)

  /** A constraint usage entry: the argv slot it binds to and the omit flag. */
  datatype Usage = Usage(argvIndex: int, omit: bool)

  /** What BestIndex hands back to the engine. The costs it sets are all small integers. */
  datatype IndexOutput = IndexOutput(
    usage: seq<Option<Usage>>,
    idxNum: bv8,
    cost: int,
    rows: int,
    orderByConsumed: bool)

  /** The plan bit of hidden column `c` (start = bit 0, stop = bit 1, step = bit 2). */
  function Mask(c: int): bv8
    requires ColumnStart <= c <= ColumnStep
  {
    if c == ColumnStart then 1 else if c == ColumnStop then 2 else 4
  }

  /** Go's `a | b` on plan masks. */
  function BitOr(a: bv8, b: bv8): bv8
  {
    a | b
  }

  predicate Has(n: bv8, c: int)
    requires ColumnStart <= c <= ColumnStep
  {
    n & Mask(c) != 0
  }

  /** Bit 3 of the plan: the scan runs in descending order. */
  predicate Descending(n: bv8) { n & 8 != 0 }

  /** Some constraint among the first `n` is on column `c` and has usability `usable`. */
  ghost predicate ConstrainedOn(cs: seq<Constraint>, n: int, c: int, usable: bool)
    requires 0 <= n <= |cs|
  {
    exists j :: 0 <= j < n && cs[j].column == c && cs[j].usable == usable
  }

  /** Some usable constraint among the first `n` is on column `c`. */
  ghost predicate UsableOn(cs: seq<Constraint>, n: int, c: int)
    requires 0 <= n <= |cs|
  {
    ConstrainedOn(cs, n, c, true)
  }

  /** Bits 0..2 of `m` record exactly the hidden columns with a constraint of usability `usable` among the first `n`. */
  ghost predicate MaskTracks(m: bv8, cs: seq<Constraint>, n: int, usable: bool)
    requires 0 <= n <= |cs|
  {
    && m & 0xF8 == 0
    && (Has(m, ColumnStart) <==> ConstrainedOn(cs, n, ColumnStart, usable))
    && (Has(m, ColumnStop) <==> ConstrainedOn(cs, n, ColumnStop, usable))
    && (Has(m, ColumnStep) <==> ConstrainedOn(cs, n, ColumnStep, usable))
  }

  /** `k` is the last usable constraint on `c` among the first `n`, or -1 when there is none. */
  ghost predicate LastUsableIs(cs: seq<Constraint>, n: int, c: int, k: int)
    requires 0 <= n <= |cs|
  {
    && (k == -1 || (0 <= k < n && cs[k].column == c && cs[k].usable))
    && forall j :: k < j < n ==> !(cs[j].column == c && cs[j].usable)
  }

  /** `idx` holds, per hidden column, its last usable constraint among the first `n`. */
  ghost predicate IdxTracks(cs: seq<Constraint>, n: int, idx: seq<int>)
    requires 0 <= n <= |cs|
  {
    && |idx| == 3
    && LastUsableIs(cs, n, ColumnStart, idx[0])
    && LastUsableIs(cs, n, ColumnStop, idx[1])
    && LastUsableIs(cs, n, ColumnStep, idx[2])
  }

  /** Constraint `j` is the one BestIndex binds: usable, on start, stop or step, and the last such on its column. */
  ghost predicate IsChosen(cs: seq<Constraint>, j: int)
    requires 0 <= j < |cs|
  {
    && ColumnStart <= cs[j].column <= ColumnStep
    && cs[j].usable
    && forall k :: j < k < |cs| ==> !(cs[k].column == cs[j].column && cs[k].usable)
  }

  /** The argv index BestIndex gives hidden column `c` under plan `n`: 1 + the number of planned columns before it. */
  function Slot(n: bv8, c: int): int
    requires ColumnStart <= c <= ColumnStep
  {
    1 + (if c > ColumnStart && Has(n, ColumnStart) then 1 else 0)
      + (if c > ColumnStop && Has(n, ColumnStop) then 1 else 0)
  }

  /** The number of arguments the engine passes to Filter under plan `n`. */
  function PlanArgc(n: bv8): int
  {
    (if Has(n, ColumnStart) then 1 else 0) + (if Has(n, ColumnStop) then 1 else 0)
      + (if Has(n, ColumnStep) then 1 else 0)
  }

  /** The whole output BestIndex promises for a plan it accepts. */
  ghost predicate PlanMatches(cs: seq<Constraint>, orderBy: seq<OrderTerm>, out: IndexOutput)
  {
    var both := UsableOn(cs, |cs|, ColumnStart) && UsableOn(cs, |cs|, ColumnStop);
    && |out.usage| == |cs|
    && MaskTracks(out.idxNum & 7, cs, |cs|, true)
    && (Descending(out.idxNum) <==> both && |orderBy| == 1 && orderBy[0].desc)
    && out.idxNum & 0xF0 == 0
    && (forall j :: 0 <= j < |cs| ==>
          out.usage[j] == if IsChosen(cs, j) then Some(Usage(Slot(out.idxNum, cs[j].column), false)) else None)
    && out.cost == (if both then (if UsableOn(cs, |cs|, ColumnStep) then 1 else 2) else 0)
    && out.rows == (if both then 1000 else HugeRows)
    && (out.orderByConsumed <==> both && |orderBy| == 1)
  }

  /** BestIndex refuses a plan exactly when some hidden column has unusable constraints and no usable one. */
  ghost predicate Unplannable(cs: seq<Constraint>)
  {
    exists c :: ColumnStart <= c <= ColumnStep && ConstrainedOn(cs, |cs|, c, false) && !UsableOn(cs, |cs|, c)
  }

  /**
   * xBestIndex. Folds the constraints into the plan bitmask, binds the last
   * usable constraint of each hidden column to consecutive argv slots, and
   * refuses the plan when a hidden column has only unusable constraints.
   * The engine never reports a column beyond the table's four.
   */
  method BestIndex(cs: seq<Constraint>, orderBy: seq<OrderTerm>) returns (r: Result<IndexOutput, int>)
    requires forall j :: 0 <= j < |cs| ==> cs[j].column <= ColumnStep
    ensures r.Err? <==> Unplannable(cs)
    ensures r.Err? ==> r.error == SqliteConstraint
    ensures r.Ok? ==> PlanMatches(cs, orderBy, r.value)
  {
    var idxNum, unusableMask, idx := ScanConstraints(cs);
    ScanPrefixTracks(cs, |cs|);
    assert MaskTracks(idxNum, cs, |cs|, true) && MaskTracks(unusableMask, cs, |cs|, false) && IdxTracks(cs, |cs|, idx);
    var usage := BindArguments(cs, idxNum, idx);

    RefusalIff(cs, unusableMask, idxNum);
    if unusableMask & !idxNum != 0 {
      return Err(SqliteConstraint);
    }

    var cost := 0;
    var rows := 0;
    var orderByConsumed := false;
    ghost var plan := idxNum;
    if idxNum & 3 == 3 {
      cost := 2;
      if idxNum & 4 != 0 {
        cost := 1;
      }
      rows := 1000;
      if |orderBy| == 1 {
        if orderBy[0].desc {
          idxNum := idxNum | 8;
        }
        orderByConsumed := true;
      }
    } else {
      rows := HugeRows;
    }
    r := Ok(IndexOutput(usage, idxNum, cost, rows, orderByConsumed));
    Accepted(cs, orderBy, plan, r.value);
  }

  /**
   * BestIndex's first loop: the masks of hidden columns with usable and
   * with unusable constraints, and the last usable constraint of each.
   */
  method ScanConstraints(cs: seq<Constraint>) returns (idxNum: bv8, unusableMask: bv8, idx: seq<int>)
    requires forall j :: 0 <= j < |cs| ==> cs[j].column <= ColumnStep
    ensures idxNum == ScanPrefix(cs, |cs|).idxNum
    ensures unusableMask == ScanPrefix(cs, |cs|).unusableMask
    ensures idx == ScanPrefix(cs, |cs|).idx
  {
    idxNum, unusableMask := 0, 0;
    idx := [-1, -1, -1];
    var i := 0;
    while i < |cs|
      invariant 0 <= i <= |cs|
      invariant idxNum == ScanPrefix(cs, i).idxNum
      invariant unusableMask == ScanPrefix(cs, i).unusableMask
      invariant idx == ScanPrefix(cs, i).idx
    {
      var con := cs[i];
      if con.column >= ColumnStart {
        var column := con.column - ColumnStart;
        var mask := Mask(con.column);
        if !con.usable {
          unusableMask := BitOr(unusableMask, mask);
        } else {
          idxNum := BitOr(idxNum, mask);
          idx := idx[column := i];
        }
      }
      i := i + 1;
    }
  }

  /** The state of BestIndex's first loop: the plan mask, the unusable mask and the last usable constraint per hidden column. */
  datatype Scan = Scan(idxNum: bv8, unusableMask: bv8, idx: seq<int>)

  /** The masks record the hidden columns with usable and with unusable constraints among the first `n`, and `idx` the last usable ones. */
  ghost predicate ScanTracks(cs: seq<Constraint>, n: int, s: Scan)
    requires 0 <= n <= |cs|
  {
    MaskTracks(s.idxNum, cs, n, true) && MaskTracks(s.unusableMask, cs, n, false) && IdxTracks(cs, n, s.idx)
  }

  /** One iteration of BestIndex's first loop on constraint number `i`. */
  ghost function ScanNext(s: Scan, con: Constraint, i: int): Scan
    requires |s.idx| == 3
  {
    if !(ColumnStart <= con.column <= ColumnStep) then s
    else if !con.usable then s.(unusableMask := BitOr(s.unusableMask, Mask(con.column)))
    else s.(idxNum := BitOr(s.idxNum, Mask(con.column)), idx := s.idx[con.column - ColumnStart := i])
  }

  /** The state of BestIndex's first loop after it has seen `n` constraints. */
  ghost function ScanPrefix(cs: seq<Constraint>, n: int): (r: Scan)
    requires 0 <= n <= |cs|
    ensures |r.idx| == 3
  {
    if n == 0 then Scan(0, 0, [-1, -1, -1]) else ScanNext(ScanPrefix(cs, n - 1), cs[n - 1], n - 1)
  }

  /** Every prefix state of the first loop tracks the constraints it has seen. */
  lemma {:induction false} ScanPrefixTracks(cs: seq<Constraint>, n: int)
    requires 0 <= n <= |cs|
    requires forall j :: 0 <= j < n ==> cs[j].column <= ColumnStep
    ensures ScanTracks(cs, n, ScanPrefix(cs, n))
  {
    if n > 0 {
      ScanPrefixTracks(cs, n - 1);
      ScanStep(cs, n - 1, ScanPrefix(cs, n - 1));
    }
  }

  /**
   * BestIndex's second loop: numbers the chosen constraints of start, stop
   * and step, in that order, from argv index 1.
   */
  method BindArguments(cs: seq<Constraint>, idxNum: bv8, idx: seq<int>) returns (usage: seq<Option<Usage>>)
    requires IdxTracks(cs, |cs|, idx) && MaskTracks(idxNum, cs, |cs|, true)
    ensures UsageUpTo(cs, idxNum, usage, 3)
  {
    var args := 0;
    usage := seq(|cs|, _ => None);
    var i := 0;
    while i < 3
      invariant 0 <= i <= 3
      invariant args == PlanArgcBelow(idxNum, i)
      invariant UsageUpTo(cs, idxNum, usage, i)
    {
      BindStep(cs, idx, idxNum, i, usage, args);
      var j := idx[i];
      if j >= 0 {
        args := args + 1;
        usage := usage[j := Some(Usage(args, false))];
      }
      i := i + 1;
    }
  }

  /** `usage` binds the chosen constraints of the hidden columns before `i + 1`, and nothing else. */
  ghost predicate UsageUpTo(cs: seq<Constraint>, n: bv8, usage: seq<Option<Usage>>, i: int)
  {
    && |usage| == |cs|
    && forall j :: 0 <= j < |cs| ==>
         usage[j] == if IsChosen(cs, j) && cs[j].column <= i then Some(Usage(Slot(n, cs[j].column), false)) else None
  }

  /** One iteration of BestIndex's second loop binds column `i + 1`'s chosen constraint to the next argv index. */
  lemma BindStep(cs: seq<Constraint>, idx: seq<int>, n: bv8, i: int, usage: seq<Option<Usage>>, args: int)
    requires IdxTracks(cs, |cs|, idx) && MaskTracks(n, cs, |cs|, true)
    requires 0 <= i < 3 && args == PlanArgcBelow(n, i) && UsageUpTo(cs, n, usage, i)
    ensures idx[i] < |cs|
    ensures idx[i] >= 0 ==>
      args + 1 == PlanArgcBelow(n, i + 1) && UsageUpTo(cs, n, usage[idx[i] := Some(Usage(args + 1, false))], i + 1)
    ensures idx[i] < 0 ==> args == PlanArgcBelow(n, i + 1) && UsageUpTo(cs, n, usage, i + 1)
  {
    ChosenOn(cs, idx, i + 1);
    SlotAfter(n, i);
  }

  /** The refusal test `unusableMask &^ idxNum != 0` holds exactly for the unplannable constraint sets. */
  lemma RefusalIff(cs: seq<Constraint>, unusableMask: bv8, idxNum: bv8)
    requires MaskTracks(idxNum, cs, |cs|, true) && MaskTracks(unusableMask, cs, |cs|, false)
    ensures unusableMask & !idxNum != 0 <==> Unplannable(cs)
  {
    AndNotBits(unusableMask, idxNum);
    if unusableMask & !idxNum != 0 {
      if Has(unusableMask, ColumnStart) && !Has(idxNum, ColumnStart) {
        assert ConstrainedOn(cs, |cs|, ColumnStart, false) && !UsableOn(cs, |cs|, ColumnStart);
      } else if Has(unusableMask, ColumnStop) && !Has(idxNum, ColumnStop) {
        assert ConstrainedOn(cs, |cs|, ColumnStop, false) && !UsableOn(cs, |cs|, ColumnStop);
      } else {
        assert ConstrainedOn(cs, |cs|, ColumnStep, false) && !UsableOn(cs, |cs|, ColumnStep);
      }
    }
  }

  /** The output BestIndex builds for an accepted plan `plan` is the one PlanMatches describes. */
  lemma Accepted(cs: seq<Constraint>, orderBy: seq<OrderTerm>, plan: bv8, out: IndexOutput)
    requires MaskTracks(plan, cs, |cs|, true) && UsageUpTo(cs, plan, out.usage, 3)
    requires var both := plan & 3 == 3;
      && out.idxNum == (if both && |orderBy| == 1 && orderBy[0].desc then plan | 8 else plan)
      && out.cost == (if both then (if plan & 4 != 0 then 1 else 2) else 0)
      && out.rows == (if both then 1000 else HugeRows)
      && out.orderByConsumed == (both && |orderBy| == 1)
    ensures PlanMatches(cs, orderBy, out)
  {
    LowBits(plan, out.idxNum);
    assert Mask(ColumnStart) == 1 && Mask(ColumnStop) == 2 && Mask(ColumnStep) == 4;
    assert plan & 3 == 3 <==> Has(plan, ColumnStart) && Has(plan, ColumnStop);
  }

  /** The number of planned hidden columns among the first `i` (in the order start, stop, step). */
  function PlanArgcBelow(n: bv8, i: int): int
    requires 0 <= i <= 3
  {
    (if i > 0 && Has(n, ColumnStart) then 1 else 0) + (if i > 1 && Has(n, ColumnStop) then 1 else 0)
      + (if i > 2 && Has(n, ColumnStep) then 1 else 0)
  }

  /** Column `i + 1` gets the argv index after the ones given to the planned columns before it. */
  lemma SlotAfter(n: bv8, i: int)
    requires 0 <= i < 3
    ensures Slot(n, i + 1) == PlanArgcBelow(n, i) + 1
    ensures PlanArgcBelow(n, i + 1) == PlanArgcBelow(n, i) + (if Has(n, i + 1) then 1 else 0)
  {
  }

  /** One iteration of BestIndex's first loop keeps the masks and `idx` in step with the constraints seen. */
  lemma ScanStep(cs: seq<Constraint>, i: int, s: Scan)
    requires 0 <= i < |cs| && cs[i].column <= ColumnStep
    requires ScanTracks(cs, i, s)
    ensures ScanTracks(cs, i + 1, ScanNext(s, cs[i], i))
  {
    ConstrainedOnStep(cs, i);
    LastUsableStep(cs, i, s.idx);
    if cs[i].column >= ColumnStart {
      MaskStep(s.idxNum, cs[i].column);
      MaskStep(s.unusableMask, cs[i].column);
    }
  }

  lemma ConstrainedOnStep(cs: seq<Constraint>, n: int)
    requires 0 <= n < |cs|
    ensures forall c, usable :: ConstrainedOn(cs, n + 1, c, usable) <==>
      ConstrainedOn(cs, n, c, usable) || (cs[n].column == c && cs[n].usable == usable)
  {
    forall c, usable | ConstrainedOn(cs, n + 1, c, usable) && !(cs[n].column == c && cs[n].usable == usable)
      ensures ConstrainedOn(cs, n, c, usable)
    {
      var j :| 0 <= j < n + 1 && cs[j].column == c && cs[j].usable == usable;
      assert j < n;
    }
    forall c, usable | ConstrainedOn(cs, n, c, usable)
      ensures ConstrainedOn(cs, n + 1, c, usable)
    {
      var j :| 0 <= j < n && cs[j].column == c && cs[j].usable == usable;
    }
  }

  lemma LastUsableStep(cs: seq<Constraint>, n: int, idx: seq<int>)
    requires 0 <= n < |cs| && IdxTracks(cs, n, idx)
    ensures cs[n].usable && ColumnStart <= cs[n].column <= ColumnStep ==>
      IdxTracks(cs, n + 1, idx[cs[n].column - ColumnStart := n])
    ensures !(cs[n].usable && ColumnStart <= cs[n].column <= ColumnStep) ==> IdxTracks(cs, n + 1, idx)
  {
    ConstrainedOnStep(cs, n);
  }

  lemma MaskStep(m: bv8, column: int)
    requires ColumnStart <= column <= ColumnStep
    ensures (BitOr(m, Mask(column))) & 0xF8 == m & 0xF8
    ensures forall c :: ColumnStart <= c <= ColumnStep ==> (Has(BitOr(m, Mask(column)), c) <==> Has(m, c) || c == column)
  {
    forall c | ColumnStart <= c <= ColumnStep
      ensures Has(BitOr(m, Mask(column)), c) <==> Has(m, c) || c == column
    {
      assert Mask(c) == 1 || Mask(c) == 2 || Mask(c) == 4;
    }
  }

  /** The constraint `idx[c-1]` is the chosen one on column `c`, and column `c` is planned exactly when it exists. */
  lemma ChosenOn(cs: seq<Constraint>, idx: seq<int>, c: int)
    requires IdxTracks(cs, |cs|, idx) && ColumnStart <= c <= ColumnStep
    ensures forall j :: 0 <= j < |cs| ==> (IsChosen(cs, j) && cs[j].column == c <==> j == idx[c - ColumnStart])
    ensures idx[c - ColumnStart] >= 0 <==> UsableOn(cs, |cs|, c)
  {
    var k := idx[c - ColumnStart];
    assert LastUsableIs(cs, |cs|, c, k);
    if k >= 0 {
      assert cs[k].column == c && cs[k].usable;
    }
    forall j | 0 <= j < |cs| && IsChosen(cs, j) && cs[j].column == c
      ensures j == k
    {
      assert UsableOn(cs, |cs|, c) by {
        assert cs[j].column == c && cs[j].usable;
      }
    }
  }

  /** For masks without high bits, `m &^ n` is non-zero exactly when some hidden column is in `m` and not in `n`. */
  lemma AndNotBits(m: bv8, n: bv8)
    requires m & 0xF8 == 0
    ensures m & !n != 0 <==>
      (Has(m, ColumnStart) && !Has(n, ColumnStart)) || (Has(m, ColumnStop) && !Has(n, ColumnStop))
      || (Has(m, ColumnStep) && !Has(n, ColumnStep))
  {
    assert Mask(ColumnStart) == 1 && Mask(ColumnStop) == 2 && Mask(ColumnStep) == 4;
  }

  /** Setting bit 3 leaves the hidden-column bits as they were. */
  lemma LowBits(plan: bv8, n: bv8)
    requires n == plan || n == plan | 8
    ensures n & 7 == plan & 7
    ensures forall c :: ColumnStart <= c <= ColumnStep ==> (Has(n, c) <==> Has(plan, c)) && (Has(n & 7, c) <==> Has(plan, c))
    ensures forall c :: ColumnStart <= c <= ColumnStep ==> Slot(n, c) == Slot(plan, c)
  {
    assert Mask(ColumnStart) == 1 && Mask(ColumnStop) == 2 && Mask(ColumnStep) == 4;
  }

  // ---------------------------------------------------------------------
  // Cursor
  // ---------------------------------------------------------------------

  /** A bound argument: SQL NULL or an integer (`Int64()` of NULL is 0). */
  datatype Value = Null | Integer(i: int)

  function Int64Of(v: Value): int
  {
    if v.Integer? then v.i else 0
  }

  /** One emitted row: its rowid and its `value` column. */
  datatype Row = Row(rowid: int, value: int)

  /** The five numeric fields and the direction flag of a cursor, as a value. */
  datatype CursorState = CursorState(
    desc: bool,
    rowid: int,
    value: int,
    minValue: int,
    maxValue: int,
    step: int)
  {
    /** xEof: past the lower bound when descending, past the upper bound otherwise. */
    predicate Eof()
    {
      if desc then value < minValue else value > maxValue
    }

    /** xNext: one step in the scan direction, and the next rowid. */
    function Next(): CursorState
    {
      this.(value := if desc then value - step else value + step, rowid := rowid + 1)
    }

    /** xColumn: start, stop and step report the bounds; every other index the current value. */
    function Column(i: int): int
    {
      if i == ColumnStart then minValue
      else if i == ColumnStop then maxValue
      else if i == ColumnStep then step
      else value
    }

    /** How far the scan still has to go before Eof; bounds the number of rows left. */
    function Remaining(): nat
    {
      if Eof() then 0 else if desc then value - minValue + 1 else maxValue - value + 1
    }
  }

  /**
   * The argv position Filter reads hidden column `c` from: the fixed
   * position `c - 1` as the Go code is written, or the position BestIndex
   * actually assigned (`Slot - 1`).
   */
  function ArgPos(n: bv8, c: int, asWritten: bool): int
    requires ColumnStart <= c <= ColumnStep
  {
    if asWritten then c - ColumnStart else Slot(n, c) - 1
  }

  /** Every planned column's argv position lies inside `values`. */
  predicate ArgsInRange(n: bv8, values: seq<Value>, asWritten: bool)
  {
    forall c :: ColumnStart <= c <= ColumnStep && Has(n, c) ==> 0 <= ArgPos(n, c, asWritten) < |values|
  }

  /** With the fixed positions, the argument check is one length test per planned column. */
  lemma FixedArgsInRange(n: bv8, values: seq<Value>)
    ensures ArgsInRange(n, values, true) <==>
      (Has(n, ColumnStart) ==> |values| > 0) && (Has(n, ColumnStop) ==> |values| > 1)
      && (Has(n, ColumnStep) ==> |values| > 2)
  {
    if !ArgsInRange(n, values, true) {
      var c :| ColumnStart <= c <= ColumnStep && Has(n, c) && !(0 <= ArgPos(n, c, true) < |values|);
      assert c == ColumnStart || c == ColumnStop || c == ColumnStep;
    }
  }

  /**
   * The cursor state xFilter leaves behind. `asWritten` selects the Go code
   * exactly (fixed argv positions; the descending start `max - (max-min) % step`
   * in wrapping `int64` arithmetic, also when min > max) or the corrected
   * reading (positions from BestIndex; the start computed exactly, and a
   * descending scan of an empty range starts below min). `wasDesc` is the
   * direction flag an earlier Filter left: an ascending plan does not clear it.
   */
  function Setup(wasDesc: bool, idxNum: bv8, values: seq<Value>, asWritten: bool): (s: CursorState)
    requires ArgsInRange(idxNum, values, asWritten)
    ensures s.step >= 1 && s.rowid == 1
    ensures s.desc == (wasDesc || Descending(idxNum))
  {
    var step := Bound(idxNum, values, ColumnStep, asWritten);
    var min := if Null in values then 1 else Bound(idxNum, values, ColumnStart, asWritten);
    var max := if Null in values then 0 else Bound(idxNum, values, ColumnStop, asWritten);
    if Descending(idxNum) then
      var start :=
        if asWritten then GoSub(max, GoRem(GoSub(max, min), step))
        else if min <= max then max - GoRem(max - min, step) else max;
      CursorState(true, 1, start, min, max, step)
    else
      CursorState(wasDesc, 1, min, min, max, step)
  }

  /** The fields of the state Setup builds, one by one. */
  lemma SetupFields(wasDesc: bool, idxNum: bv8, values: seq<Value>, asWritten: bool)
    requires ArgsInRange(idxNum, values, asWritten)
    ensures var s := Setup(wasDesc, idxNum, values, asWritten);
      && s.step == Bound(idxNum, values, ColumnStep, asWritten)
      && s.minValue == (if Null in values then 1 else Bound(idxNum, values, ColumnStart, asWritten))
      && s.maxValue == (if Null in values then 0 else Bound(idxNum, values, ColumnStop, asWritten))
      && s.value == (if !Descending(idxNum) then s.minValue
                     else if asWritten then GoSub(s.maxValue, GoRem(GoSub(s.maxValue, s.minValue), s.step))
                     else if s.minValue <= s.maxValue then s.maxValue - GoRem(s.maxValue - s.minValue, s.step)
                     else s.maxValue)
  {
  }

  /**
   * What Filter reads for hidden column `c` before the NULL check: the
   * argument when the column is planned, otherwise 0 for start, 0xffffffff
   * for stop and 1 for step; a step below 1 is read as 1. (A position
   * outside `values` reads as 0; Setup only asks for positions inside it.)
   */
  function Bound(n: bv8, values: seq<Value>, c: int, asWritten: bool): (b: int)
    requires ColumnStart <= c <= ColumnStep
    ensures c == ColumnStep ==> b >= 1
  {
    if !Has(n, c) then (if c == ColumnStart then 0 else if c == ColumnStop then DefaultMax else 1)
    else
      var p := ArgPos(n, c, asWritten);
      var v := if 0 <= p < |values| then Int64Of(values[p]) else 0;
      if c == ColumnStep && v < 1 then 1 else v
  }

  /** xFilter as the Go code is written: None where an argv read is out of range (a Go panic). */
  function FilterAsWritten(wasDesc: bool, idxNum: bv8, values: seq<Value>): Option<CursorState>
  {
    if ArgsInRange(idxNum, values, true) then Some(Setup(wasDesc, idxNum, values, true)) else None
  }

  /** xFilter as evidently intended: each planned column read from the argv slot BestIndex gave it. */
  function FilterSpec(wasDesc: bool, idxNum: bv8, values: seq<Value>): (s: CursorState)
    requires |values| == PlanArgc(idxNum)
    ensures s.step >= 1 && s.rowid == 1
    ensures s.desc == (wasDesc || Descending(idxNum))
    ensures ArgsInRange(idxNum, values, false)
    ensures Null !in values && Has(idxNum, ColumnStart) ==> s.minValue == Int64Of(values[Slot(idxNum, ColumnStart) - 1])
    ensures Null !in values && Has(idxNum, ColumnStop) ==> s.maxValue == Int64Of(values[Slot(idxNum, ColumnStop) - 1])
    ensures Has(idxNum, ColumnStep) ==>
      s.step == (var v := Int64Of(values[Slot(idxNum, ColumnStep) - 1]); if v < 1 then 1 else v)
    ensures Null in values ==> s.minValue == 1 && s.maxValue == 0
    ensures Null !in values && !Has(idxNum, ColumnStart) ==> s.minValue == 0
    ensures Null !in values && !Has(idxNum, ColumnStop) ==> s.maxValue == DefaultMax
    ensures !Has(idxNum, ColumnStep) ==> s.step == 1
    ensures !Descending(idxNum) ==> s.value == s.minValue
    ensures Descending(idxNum) ==>
      s.value == if s.minValue <= s.maxValue then s.maxValue - GoRem(s.maxValue - s.minValue, s.step) else s.maxValue
  {
    SlotsInRange(idxNum, values);
    SetupFields(wasDesc, idxNum, values, false);
    Setup(wasDesc, idxNum, values, false)
  }

  /** The slots BestIndex numbers are 1..PlanArgc, so the corrected reads never leave `values`. */
  lemma SlotsInRange(n: bv8, values: seq<Value>)
    requires |values| == PlanArgc(n)
    ensures ArgsInRange(n, values, false)
  {
  }

  /** The plan numbers whose argv layout the fixed positions read correctly. */
  predicate ConsistentPlan(n: bv8)
  {
    var p := n & 7;
    p == 0 || p == 1 || p == 3 || p == 7
  }

  /**
   * With one argument per planned column, the Go Filter's fixed reads stay
   * in range exactly for plans 0, 1, 3 and 7 (low three bits); every other
   * plan (stop without start, step without start and stop) makes it panic.
   */
  lemma {:induction false} FixedReadsInRange(n: bv8, values: seq<Value>)
    requires |values| == PlanArgc(n)
    ensures FilterAsWritten(false, n, values).Some? <==> ConsistentPlan(n)
    ensures ConsistentPlan(n) ==> forall c :: ColumnStart <= c <= ColumnStep && Has(n, c) ==> ArgPos(n, c, true) == ArgPos(n, c, false)
  {
    var p := n & 7;
    assert Has(n, ColumnStart) == (p & 1 != 0) && Has(n, ColumnStop) == (p & 2 != 0) && Has(n, ColumnStep) == (p & 4 != 0);
    if !ConsistentPlan(n) {
      if p == 2 {
        assert !ArgsInRange(n, values, true) by { assert 0 <= ArgPos(n, ColumnStop, true) < |values| ==> false; }
      } else {
        assert !ArgsInRange(n, values, true) by { assert 0 <= ArgPos(n, ColumnStep, true) < |values| ==> false; }
      }
    }
  }

  /**
   * On the plans it reads correctly, on non-empty ranges and on ranges whose
   * width `max - min` fits in `int64`, the Go Filter agrees with the corrected one.
   */
  lemma AsWrittenAgrees(wasDesc: bool, idxNum: bv8, values: seq<Value>)
    requires |values| == PlanArgc(idxNum) && ConsistentPlan(idxNum)
    requires forall v :: v in values ==> IsInt64(Int64Of(v))
    requires FilterSpec(wasDesc, idxNum, values).minValue <= FilterSpec(wasDesc, idxNum, values).maxValue
    requires IsInt64(FilterSpec(wasDesc, idxNum, values).maxValue - FilterSpec(wasDesc, idxNum, values).minValue)
    ensures FilterAsWritten(wasDesc, idxNum, values) == Some(FilterSpec(wasDesc, idxNum, values))
  {
    FixedReadsInRange(idxNum, values);
    BoundsAgree(idxNum, values);
    var s := FilterSpec(wasDesc, idxNum, values);
    BoundsInt64(idxNum, values, false);
    if Descending(idxNum) {
      var d := s.maxValue - s.minValue;
      RemainderAtMost(d, s.step);
      assert GoSub(s.maxValue, s.minValue) == d;
      assert GoSub(s.maxValue, GoRem(d, s.step)) == s.maxValue - GoRem(d, s.step);
    }
  }

  /** On the plans the fixed positions read correctly, both readings give the same bounds. */
  lemma BoundsAgree(n: bv8, values: seq<Value>)
    requires |values| == PlanArgc(n) && ConsistentPlan(n)
    ensures forall c :: ColumnStart <= c <= ColumnStep ==> Bound(n, values, c, true) == Bound(n, values, c, false)
  {
    FixedReadsInRange(n, values);
  }

  /** With `int64` arguments, the bounds Filter reads are `int64` values. */
  lemma BoundsInt64(n: bv8, values: seq<Value>, asWritten: bool)
    requires forall v :: v in values ==> IsInt64(Int64Of(v))
    ensures forall c :: ColumnStart <= c <= ColumnStep ==> IsInt64(Bound(n, values, c, asWritten))
  {
    forall c | ColumnStart <= c <= ColumnStep
      ensures IsInt64(Bound(n, values, c, asWritten))
    {
      var p := ArgPos(n, c, asWritten);
      if 0 <= p < |values| {
        assert values[p] in values;
      }
    }
  }

  /** Go's remainder of a non-negative dividend by a positive divisor is at most the dividend. */
  lemma RemainderAtMost(a: int, b: int)
    requires a >= 0 && b >= 1
    ensures 0 <= GoRem(a, b) <= a
  {
    GoRemOfNonNegative(a, b);
    ModAtMost(a, b);
  }

  /** The cursor of one scan; the engine owns it exclusively. */
  class SeriesCursor {
    var desc: bool
    var rowid: int
    var value: int
    var minValue: int
    var maxValue: int
    var step: int

    function State(): CursorState
      reads this
    {
      CursorState(desc, rowid, value, minValue, maxValue, step)
    }

    /** xOpen: every field zero. */
    constructor ()
      ensures State() == CursorState(false, 0, 0, 0, 0, 0)
    {
      desc, rowid, value, minValue, maxValue, step := false, 0, 0, 0, 0, 0;
    }

    /**
     * xFilter as written: start, stop and step come from argv positions 0,
     * 1 and 2. Where a position is missing Go panics with an index out of
     * range; the method then returns `ok == false`, having updated only the
     * fields set before the failing read.
     */
    method Filter(idxNum: bv8, values: seq<Value>) returns (ok: bool)
      requires |values| == PlanArgc(idxNum)
      requires forall v :: v in values ==> IsInt64(Int64Of(v))
      modifies this
      ensures ok == ArgsInRange(idxNum, values, true)
      ensures ok ==> State() == Setup(old(desc), idxNum, values, true)
    {
      FixedArgsInRange(idxNum, values);
      ok := false;
      if Has(idxNum, ColumnStart) {
        if |values| <= 0 {
          return;
        }
        minValue := Int64Of(values[0]);
      } else {
        minValue := 0;
      }
      assert minValue == Bound(idxNum, values, ColumnStart, true);

      if Has(idxNum, ColumnStop) {
        if |values| <= 1 {
          return;
        }
        maxValue := Int64Of(values[1]);
      } else {
        maxValue := DefaultMax;
      }
      assert maxValue == Bound(idxNum, values, ColumnStop, true);

      if Has(idxNum, ColumnStep) {
        if |values| <= 2 {
          return;
        }
        step := Int64Of(values[2]);
        if step < 1 {
          step := 1;
        }
      } else {
        step := 1;
      }
      assert step == Bound(idxNum, values, ColumnStep, true);
      ok := true;

      ghost var sawNull := false;
      var i := 0;
      while i < |values|
        invariant 0 <= i <= |values|
        invariant forall k :: 0 <= k < i ==> values[k] != Null
        invariant !sawNull
        invariant minValue == Bound(idxNum, values, ColumnStart, true)
        invariant maxValue == Bound(idxNum, values, ColumnStop, true)
      {
        if values[i] == Null {
          minValue := 1;
          maxValue := 0;
          sawNull := true;
          break;
        }
        i := i + 1;
      }
      assert sawNull <==> Null in values;
      ghost var target := Setup(old(desc), idxNum, values, true);
      SetupFields(old(desc), idxNum, values, true);
      assert minValue == target.minValue && maxValue == target.maxValue && step == target.step;

      if Descending(idxNum) {
        desc := true;
        value := maxValue;
        if step > 0 {
          value := GoSub(value, GoRem(GoSub(maxValue, minValue), step));
        }
        assert value == target.value;
      } else {
        value := minValue;
      }
      rowid := 1;
    }

    /** xNext; Go does not check for overflow, so the caller keeps the scan inside `int64`. */
    method Next()
      requires IsInt64(rowid + 1)
      requires IsInt64(if desc then value - step else value + step)
      modifies this
      ensures State() == old(State()).Next()
    {
      if desc {
        value := value - step;
      } else {
        value := value + step;
      }
      rowid := rowid + 1;
    }

    /** xEof: true exactly when the scan has no rows left. */
    function Eof(): (b: bool)
      reads this
      ensures step >= 1 ==> (b <==> Trace(State()) == [])
    {
      State().Eof()
    }

    /** xColumn: the value column is the value of the next row of the scan. */
    function Column(i: int): (r: int)
      reads this
      ensures step >= 1 && !Eof() && i == ColumnValue ==> r == Trace(State())[0].value
      ensures i == ColumnStart ==> r == minValue
      ensures i == ColumnStop ==> r == maxValue
      ensures i == ColumnStep ==> r == step
      ensures i != ColumnStart && i != ColumnStop && i != ColumnStep ==> r == value
    {
      State().Column(i)
    }

    /** xRowid: the rowid of the next row of the scan. */
    function Rowid(): (r: int)
      reads this
      ensures step >= 1 && !Eof() ==> r == Trace(State())[0].rowid
    {
      rowid
    }
  }

  // ---------------------------------------------------------------------
  // The rows a scan emits
  // ---------------------------------------------------------------------

  /**
   * The rows the engine reads by alternating Eof, Column(0), Rowid and Next
   * until Eof. Next steps in unbounded arithmetic here, so at the edge of the
   * `int64` range this is a finite scan where Go's wraps and never ends.
   */
  function Trace(s: CursorState): seq<Row>
    requires s.step >= 1
    decreases s.Remaining()
  {
    if s.Eof() then [] else [Row(s.rowid, s.Column(ColumnValue))] + Trace(s.Next())
  }

  /** The number of grid points `lo, lo+step, ...` that do not exceed `hi`. */
  function Count(lo: int, hi: int, step: int): nat
    requires step >= 1
  {
    if lo > hi then 0 else (hi - lo) / step + 1
  }

  /** The values of an ascending `generate_series(min, max, step)`: the grid from min, up to max. */
  function SeriesValues(min: int, max: int, step: int): seq<int>
    requires step >= 1
  {
    seq(Count(min, max, step), k => min + k * step)
  }

  function Values(rows: seq<Row>): (r: seq<int>)
    ensures |r| == |rows| && forall k :: 0 <= k < |rows| ==> r[k] == rows[k].value
  {
    seq(|rows|, k requires 0 <= k < |rows| => rows[k].value)
  }

  function Rowids(rows: seq<Row>): (r: seq<int>)
    ensures |r| == |rows| && forall k :: 0 <= k < |rows| ==> r[k] == rows[k].rowid
  {
    seq(|rows|, k requires 0 <= k < |rows| => rows[k].rowid)
  }

  function Reverse(s: seq<int>): (r: seq<int>)
    ensures |r| == |s| && forall k :: 0 <= k < |s| ==> r[k] == s[|s| - 1 - k]
  {
    seq(|s|, k requires 0 <= k < |s| => s[|s| - 1 - k])
  }

  lemma CountStep(lo: int, hi: int, step: int)
    requires step >= 1 && lo <= hi
    ensures Count(lo, hi, step) == 1 + Count(lo + step, hi, step)
  {
    if lo + step <= hi {
      DivStep(hi - lo, step);
    }
  }

  /** SeriesValues are exactly the grid points between min and max: each is inside, the next one is past max. */
  lemma SeriesValuesBounds(min: int, max: int, step: int)
    requires step >= 1
    ensures forall k :: 0 <= k < |SeriesValues(min, max, step)| ==> min <= SeriesValues(min, max, step)[k] <= max
    ensures min + |SeriesValues(min, max, step)| * step > max
  {
    var n := Count(min, max, step);
    if min <= max {
      var q := (max - min) / step;
      assert max - min == step * q + (max - min) % step;
      forall k | 0 <= k < n
        ensures min + k * step <= max
      {
        assert k <= q;
        assert k * step <= q * step;
      }
      assert (q + 1) * step > max - min;
    }
  }

  /** An ascending scan from any state emits the grid from `value` up to `maxValue`, with consecutive rowids. */
  lemma {:induction false} TraceAscending(s: CursorState)
    requires s.step >= 1 && !s.desc
    ensures |Trace(s)| == Count(s.value, s.maxValue, s.step)
    ensures forall k :: 0 <= k < |Trace(s)| ==> Trace(s)[k] == Row(s.rowid + k, s.value + k * s.step)
    decreases s.Remaining()
  {
    if !s.Eof() {
      TraceAscending(s.Next());
      CountStep(s.value, s.maxValue, s.step);
      var t := Trace(s);
      forall k | 0 <= k < |t|
        ensures t[k] == Row(s.rowid + k, s.value + k * s.step)
      {
        if k > 0 {
          assert t[k] == Trace(s.Next())[k - 1];
          assert s.value + s.step + (k - 1) * s.step == s.value + k * s.step;
        }
      }
    }
  }

  /** A descending scan from any state emits the grid from `value` down to `minValue`, with consecutive rowids. */
  lemma {:induction false} TraceDescending(s: CursorState)
    requires s.step >= 1 && s.desc
    ensures |Trace(s)| == Count(s.minValue, s.value, s.step)
    ensures forall k :: 0 <= k < |Trace(s)| ==> Trace(s)[k] == Row(s.rowid + k, s.value - k * s.step)
    decreases s.Remaining()
  {
    if !s.Eof() {
      TraceDescending(s.Next());
      if s.minValue <= s.value - s.step {
        DivStep(s.value - s.minValue, s.step);
      }
      var t := Trace(s);
      forall k | 0 <= k < |t|
        ensures t[k] == Row(s.rowid + k, s.value - k * s.step)
      {
        if k > 0 {
          assert t[k] == Trace(s.Next())[k - 1];
          assert s.value - s.step - (k - 1) * s.step == s.value - k * s.step;
        }
      }
    }
  }

  /**
   * An ascending scan after Filter emits `min, min+step, ...` up to the
   * largest value not above `max` ((max-min)/step + 1 rows, none when
   * min > max), with rowids 1, 2, ...
   */
  lemma AscendingScan(idxNum: bv8, values: seq<Value>)
    requires |values| == PlanArgc(idxNum) && !Descending(idxNum)
    ensures var s := FilterSpec(false, idxNum, values);
      && Values(Trace(s)) == SeriesValues(s.minValue, s.maxValue, s.step)
      && Rowids(Trace(s)) == seq(|Trace(s)|, k => k + 1)
  {
    AscendingFromMin(FilterSpec(false, idxNum, values));
  }

  /** An ascending scan that starts at min walks the grid up to max. */
  lemma AscendingFromMin(s: CursorState)
    requires !s.desc && s.step >= 1 && s.value == s.minValue
    ensures Values(Trace(s)) == SeriesValues(s.minValue, s.maxValue, s.step)
    ensures Rowids(Trace(s)) == seq(|Trace(s)|, k => s.rowid + k)
  {
    TraceAscending(s);
  }

  /** `max - (max-min) % step` is the last grid point from min that does not exceed max. */
  lemma RemainderGrid(min: int, max: int, step: int)
    requires step >= 1 && min <= max
    ensures var top := max - GoRem(max - min, step);
      && min <= top <= max
      && top == min + (Count(min, max, step) - 1) * step
      && Count(min, top, step) == Count(min, max, step)
  {
    GoRemOfNonNegative(max - min, step);
    var q, r := (max - min) / step, (max - min) % step;
    DivUnique(max - min, step, q, r);
    MulSign(q, step);
    assert q * step >= 0;
    DivUnique(q * step, step, q, 0);
  }

  /**
   * A descending scan after the corrected Filter emits exactly the values
   * of the ascending scan, in reverse, with rowids 1, 2, ... (for empty
   * ranges too).
   */
  lemma DescendingScan(wasDesc: bool, idxNum: bv8, values: seq<Value>)
    requires |values| == PlanArgc(idxNum) && Descending(idxNum)
    ensures var s := FilterSpec(wasDesc, idxNum, values);
      && Values(Trace(s)) == Reverse(SeriesValues(s.minValue, s.maxValue, s.step))
      && Rowids(Trace(s)) == seq(|Trace(s)|, k => k + 1)
  {
    DescendingFromTop(FilterSpec(wasDesc, idxNum, values));
  }

  /** A descending scan that starts at the last grid point below max walks the grid back down to min. */
  lemma DescendingFromTop(s: CursorState)
    requires s.desc && s.step >= 1
    requires s.value == if s.minValue <= s.maxValue then s.maxValue - GoRem(s.maxValue - s.minValue, s.step) else s.maxValue
    ensures Values(Trace(s)) == Reverse(SeriesValues(s.minValue, s.maxValue, s.step))
    ensures Rowids(Trace(s)) == seq(|Trace(s)|, k => s.rowid + k)
  {
    TraceDescending(s);
    if s.minValue <= s.maxValue {
      RemainderGrid(s.minValue, s.maxValue, s.step);
      var n := Count(s.minValue, s.maxValue, s.step);
      var asc := SeriesValues(s.minValue, s.maxValue, s.step);
      forall k | 0 <= k < n
        ensures Values(Trace(s))[k] == Reverse(asc)[k]
      {
        assert (n - 1 - k) * s.step == (n - 1) * s.step - k * s.step;
      }
    }
  }

  /** A NULL argument makes every scan of a cursor filtered only with its own plan empty. */
  lemma NullScanIsEmpty(wasDesc: bool, idxNum: bv8, values: seq<Value>)
    requires |values| == PlanArgc(idxNum) && Null in values
    requires wasDesc ==> Descending(idxNum)
    ensures Trace(FilterSpec(wasDesc, idxNum, values)) == []
  {
  }

  /**
   * The Go Filter's descending start on an empty range: for start 5,
   * stop 3, step 10 and ORDER BY value DESC (plan 15) it starts at
   * `3 - (-2 % 10) = 5`, which is not below min, so the scan emits 5 although
   * the ascending scan of the same bounds (plan 7) emits nothing.
   */
  lemma DescendingEmptyRangeAsWritten()
    ensures var vs := [Integer(5), Integer(3), Integer(10)];
      && FilterAsWritten(false, 15, vs).Some?
      && Trace(FilterAsWritten(false, 15, vs).value) == [Row(1, 5)]
      && FilterAsWritten(false, 7, vs).Some?
      && Trace(FilterAsWritten(false, 7, vs).value) == []
  {
    var vs := [Integer(5), Integer(3), Integer(10)];
    assert ArgsInRange(15, vs, true);
    assert ArgsInRange(7, vs, true);
    var s := FilterAsWritten(false, 15, vs).value;
    assert s == CursorState(true, 1, 5, 5, 3, 10);
    assert Trace(s.Next()) == [];
  }

  /**
   * Go's `max - min` wraps around when the range is wider than `int64`: for
   * start -1, stop 2^63-1 and step 3 under plan 15 it is -2^63, whose Go
   * remainder by 3 is -2, and `max + 2` wraps to -2^63+1, below min, so the
   * descending scan emits nothing. The corrected Filter starts at the last grid
   * point 2^63-3.
   */
  lemma WideRangeWrapsAsWritten()
    ensures var vs := [Integer(-1), Integer(Int64Max), Integer(3)];
      && FilterAsWritten(false, 15, vs).Some?
      && FilterAsWritten(false, 15, vs).value.value == Int64Min + 1
      && Trace(FilterAsWritten(false, 15, vs).value) == []
      && FilterSpec(false, 15, vs).value == Int64Max - 2
      && Trace(FilterSpec(false, 15, vs)) != []
  {
    var vs := [Integer(-1), Integer(Int64Max), Integer(3)];
    assert ArgsInRange(15, vs, true);
    var d := Int64Max + 1;
    assert GoSub(Int64Max, -1) == Int64Min by {
      assert Wrap64(d) == (d - Int64Min) % 0x1_0000_0000_0000_0000 + Int64Min;
      DivUnique(d - Int64Min, 0x1_0000_0000_0000_0000, 1, 0);
    }
    assert GoRem(Int64Min, 3) == -2 by {
      assert -Int64Min == 3 * 3074457345618258602 + 2;
      DivUnique(-Int64Min, 3, 3074457345618258602, 2);
    }
    assert GoSub(Int64Max, -2) == Int64Min + 1 by {
      assert Wrap64(Int64Max + 2) == (Int64Max + 2 - Int64Min) % 0x1_0000_0000_0000_0000 + Int64Min;
      DivUnique(Int64Max + 2 - Int64Min, 0x1_0000_0000_0000_0000, 1, 1);
    }
    var s := FilterAsWritten(false, 15, vs).value;
    assert s == CursorState(true, 1, Int64Min + 1, -1, Int64Max, 3);
    SlotsInRange(15, vs);
    var t := FilterSpec(false, 15, vs);
    assert t.minValue == -1 && t.maxValue == Int64Max && t.step == 3;
    assert GoRem(Int64Max + 1, 3) == 2 by {
      DivUnique(Int64Max + 1, 3, 3074457345618258602, 2);
    }
    assert !t.Eof();
  }

  /**
   * The Go Filter's NULL guard (min 1, max 0) does empty every ascending
   * scan of a plan it reads correctly.
   */
  lemma NullAscendingIsEmptyAsWritten(idxNum: bv8, values: seq<Value>)
    requires |values| == PlanArgc(idxNum) && ConsistentPlan(idxNum)
    requires !Descending(idxNum) && Null in values
    ensures FilterAsWritten(false, idxNum, values).Some?
    ensures Trace(FilterAsWritten(false, idxNum, values).value) == []
  {
    FixedReadsInRange(idxNum, values);
  }

  /**
   * ... but not a descending one: for `start 1, stop NULL, step 2` under
   * plan 15 the start is `0 - (-1 % 2) = 1`, which is not below min, so one
   * row with value 1 is emitted.
   */
  lemma NullDescendingRowAsWritten()
    ensures var vs := [Integer(1), Null, Integer(2)];
      && FilterAsWritten(false, 15, vs).Some?
      && Trace(FilterAsWritten(false, 15, vs).value) == [Row(1, 1)]
  {
    var vs := [Integer(1), Null, Integer(2)];
    assert ArgsInRange(15, vs, true);
    var s := FilterAsWritten(false, 15, vs).value;
    assert s == CursorState(true, 1, 1, 1, 0, 2);
    assert Trace(s.Next()) == [];
  }

  /**
   * The Go Filter on plan 2 (stop only, `WHERE stop = 10`): BestIndex gives
   * the stop constraint argv index 1, so Filter receives one value, but
   * reads it from position 1, past the end.
   */
  lemma StopOnlyPlanAsWritten()
    ensures FilterAsWritten(false, 2, [Integer(10)]).None?
    ensures FilterSpec(false, 2, [Integer(10)]).maxValue == 10
  {
    assert !ArgsInRange(2, [Integer(10)], true) by {
      assert Has(2, ColumnStop);
    }
  }

  /** A step argument below 1 is read as 1. */
  lemma NonPositiveStepIsOne(wasDesc: bool, idxNum: bv8, values: seq<Value>)
    requires |values| == PlanArgc(idxNum)
    requires Has(idxNum, ColumnStep) && Int64Of(values[Slot(idxNum, ColumnStep) - 1]) < 1
    ensures FilterSpec(wasDesc, idxNum, values).step == 1
  {
  }

  /** The scan of `start 1, stop 10, step 2`: 1, 3, 5, 7, 9. */
  lemma AscendingExample()
    ensures Values(Trace(FilterSpec(false, 7, [Integer(1), Integer(10), Integer(2)]))) == [1, 3, 5, 7, 9]
  {
    AscendingScan(7, [Integer(1), Integer(10), Integer(2)]);
    var s := FilterSpec(false, 7, [Integer(1), Integer(10), Integer(2)]);
    assert s.minValue == 1 && s.maxValue == 10 && s.step == 2;
    assert SeriesValues(1, 10, 2) == [1, 3, 5, 7, 9];
  }

  /** The scan of `start 1, stop 10, step 3` in descending order: 10, 7, 4, 1. */
  lemma DescendingExample()
    ensures Values(Trace(FilterSpec(false, 15, [Integer(1), Integer(10), Integer(3)]))) == [10, 7, 4, 1]
  {
    DescendingScan(false, 15, [Integer(1), Integer(10), Integer(3)]);
    var s := FilterSpec(false, 15, [Integer(1), Integer(10), Integer(3)]);
    assert s.minValue == 1 && s.maxValue == 10 && s.step == 3;
    assert SeriesValues(1, 10, 3) == [1, 4, 7, 10];
  }
}
