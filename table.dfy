/**
 * The shared vocabulary of the virtual-table layer (src/table.rs): the
 * constraint operators and their raw codes, the ORDER BY direction, the
 * xBestIndex error codes, the constraint and usage records every planner
 * reads and writes, and the parsing of xCreate's `argv`.
 */
module Table {
  import opened Wrappers

  /** The largest `i64`. */
  const Int64Max := 0x7fff_ffff_ffff_ffff

  /** The operator of a constraint; `FUNCTION` carries an overloaded function's code. */
  datatype ConstraintOperator =
    | EQ | GT | LE | LT | GE
    | MATCH | LIKE | GLOB | REGEXP | NE | ISNOT | ISNOTNULL | ISNULL | IS | LIMIT | OFFSET
    | FUNCTION(code: Byte)

  /** The raw codes `operator` accepts: the five comparisons, 64..74 and 150..255. */
  predicate IsOperatorCode(op: Byte)
  {
    op in {2, 4, 8, 16, 32} || 64 <= op <= 74 || 150 <= op
  }

  /** `operator`: the raw SQLITE_INDEX_CONSTRAINT_* code of a constraint, decoded. */
  function Operator(op: Byte): (r: Option<ConstraintOperator>)
    ensures r.Some? <==> IsOperatorCode(op)
    ensures r.Some? && r.value.FUNCTION? ==> r.value.code == op
  {
    match op
    case 2 => Some(EQ)
    case 4 => Some(GT)
    case 8 => Some(LE)
    case 16 => Some(LT)
    case 32 => Some(GE)
    case 64 => Some(MATCH)
    case 65 => Some(LIKE)
    case 66 => Some(GLOB)
    case 67 => Some(REGEXP)
    case 68 => Some(NE)
    case 69 => Some(ISNOT)
    case 70 => Some(ISNOTNULL)
    case 71 => Some(ISNULL)
    case 72 => Some(IS)
    case 73 => Some(LIMIT)
    case 74 => Some(OFFSET)
    case _ => if 150 <= op then Some(FUNCTION(op)) else None
  }

  /** The raw code SQLite uses for each operator (section "xBestIndex" of the virtual table document). */
  function OperatorCode(o: ConstraintOperator): int
  {
    match o
    case EQ => 2
    case GT => 4
    case LE => 8
    case LT => 16
    case GE => 32
    case MATCH => 64
    case LIKE => 65
    case GLOB => 66
    case REGEXP => 67
    case NE => 68
    case ISNOT => 69
    case ISNOTNULL => 70
    case ISNULL => 71
    case IS => 72
    case LIMIT => 73
    case OFFSET => 74
    case FUNCTION(code) => code
  }

  /** An operator `operator` can produce: a function code lies in 150..255. */
  predicate WellFormedOperator(o: ConstraintOperator)
  {
    o.FUNCTION? ==> 150 <= o.code
  }

  /** Decoding then encoding gives the byte back, so `operator` is injective on the codes it accepts. */
  lemma OperatorDecodes(op: Byte)
    requires Operator(op).Some?
    ensures OperatorCode(Operator(op).value) == op
    ensures WellFormedOperator(Operator(op).value)
  {
  }

  /** Encoding then decoding gives every well-formed operator back. */
  lemma OperatorEncodes(o: ConstraintOperator)
    requires WellFormedOperator(o)
    ensures 0 <= OperatorCode(o) < 256 && Operator(OperatorCode(o)) == Some(o)
  {
  }

  /** Two codes that decode to the same operator are the same code. */
  lemma OperatorInjective(a: Byte, b: Byte)
    requires Operator(a).Some? && Operator(a) == Operator(b)
    ensures a == b
  {
    OperatorDecodes(a);
    OperatorDecodes(b);
  }

  datatype OrderByDirection = Ascending | Descending

  /** `OrderBy::direction`: only the byte value 1 means descending. */
  function Direction(desc: Byte): (d: OrderByDirection)
    ensures d == Descending <==> desc == 1
  {
    if desc == 1 then Descending else Ascending
  }

  /** The two errors a planner may report. */
  datatype BestIndexError = ConstraintError | GeneralError

  const SqliteOkay := 0
  const SqliteError := 1
  const SqliteConstraint := 19

  /** The code xBestIndex hands back to SQLite for a planner's result. */
  function BestIndexCode(r: Result<(), BestIndexError>): (code: int)
    ensures code == SqliteOkay <==> r.Ok?
    ensures code in {SqliteOkay, SqliteError, SqliteConstraint}
    ensures r == Err(ConstraintError) ==> code == SqliteConstraint
    ensures r == Err(GeneralError) ==> code == SqliteError
  {
    match r
    case Ok(_) => SqliteOkay
    case Err(ConstraintError) => SqliteConstraint
    case Err(GeneralError) => SqliteError
  }

  /** Distinct results get distinct codes, so SQLite can tell the two errors apart. */
  lemma BestIndexCodeInjective(a: Result<(), BestIndexError>, b: Result<(), BestIndexError>)
    requires BestIndexCode(a) == BestIndexCode(b)
    ensures a == b
  {
    match a
    case Ok(u) =>
      var v := b.value;
      assert u == v;
    case Err(_) =>
  }

  // ---------------------------------------------------------------------
  // The records every planner works on
  // ---------------------------------------------------------------------

  /** One entry of `aConstraint`: the column, the raw operator byte and the usable flag. */
  datatype IndexConstraint = IndexConstraint(columnIdx: int, op: Byte, usable: bool)

  /** `Constraint::op`: the constraint's raw byte decoded, None for a code `operator` does not know. */
  function Op(c: IndexConstraint): (r: Option<ConstraintOperator>)
    ensures r.Some? <==> IsOperatorCode(c.op)
    ensures r.Some? ==> OperatorCode(r.value) == c.op
  {
    Operator(c.op)
  }

  /** One entry of `aConstraintUsage`, as a planner leaves it. */
  datatype ConstraintUsage = ConstraintUsage(argvIndex: int, omit: bool)

  /** SQLite hands every usage entry to the planner zeroed. */
  const Untouched := ConstraintUsage(0, false)

  /** The output fields a planner sets; costs are whole numbers in every planner here. */
  datatype IndexPlan = IndexPlan(
    usage: seq<ConstraintUsage>,
    cost: int,
    rows: int,
    idxNum: int,
    idxStr: Option<string>)

  /**
   * How a planner call ends: a plan, one of the two errors, or a Rust panic
   * (`todo!()`, a failed `unwrap`), which aborts the process.
   */
  datatype PlanOutcome = Planned(plan: IndexPlan) | Refused(error: BestIndexError) | Aborted

  /**
   * The position of the first constraint a planner's loop does not accept,
   * or `|cs|` when it accepts them all. Every Rust planner here walks the
   * constraints in order and stops at the first one it cannot take.
   */
  function FirstRejected(cs: seq<IndexConstraint>, accepts: IndexConstraint -> bool): (k: nat)
    ensures k <= |cs|
    ensures forall j :: 0 <= j < k ==> accepts(cs[j])
    ensures k < |cs| ==> !accepts(cs[k])
  {
    if |cs| == 0 then 0
    else if !accepts(cs[0]) then 0
    else
      var k := FirstRejected(cs[1..], accepts);
      assert forall j :: 1 <= j < k + 1 ==> cs[j] == cs[1..][j - 1];
      k + 1
  }

  /** There is at most one position the loop can stop at. */
  lemma FirstRejectedUnique(cs: seq<IndexConstraint>, accepts: IndexConstraint -> bool, i: nat)
    requires i <= |cs|
    requires forall j :: 0 <= j < i ==> accepts(cs[j])
    requires i < |cs| ==> !accepts(cs[i])
    ensures FirstRejected(cs, accepts) == i
  {
  }

  /** How a cursor's xFilter ends: normally, with an error result, or with a panic. */
  datatype FilterOutcome = Filtered | FilterFailed | FilterPanicked

  // ---------------------------------------------------------------------
  // xCreate arguments
  // ---------------------------------------------------------------------

  /** `VTabArguments`: argv[0], argv[1], argv[2] and the rest, in order. */
  datatype VTabArguments = VTabArguments(
    moduleName: string,
    databaseName: string,
    tableName: string,
    arguments: seq<string>)

  /**
   * How `process_create_args` ends: parsed arguments, a UTF-8 error, or a
   * panic from one of its `expect` calls when fewer than three strings came.
   */
  datatype CreateArgs = Parsed(args: VTabArguments) | Utf8Failure | MissingArgv

  /** The text of every argument, in order; an argument is `None` when its bytes are not UTF-8. */
  function Texts(argv: seq<Option<string>>): (r: seq<string>)
    requires None !in argv
    ensures |r| == |argv|
    ensures forall k :: 0 <= k < |argv| ==> r[k] == argv[k].value
  {
    if |argv| == 0 then [] else Texts(argv[..|argv| - 1]) + [argv[|argv| - 1].value]
  }

  /**
   * `process_create_args`: converts each C string in turn, stopping at the
   * first that is not UTF-8, then takes the first three as module, database
   * and table names and keeps the rest as the constructor's arguments.
   */
  method ProcessCreateArgs(argv: seq<Option<string>>) returns (r: CreateArgs)
    ensures r.Utf8Failure? <==> None in argv
    ensures r.MissingArgv? <==> None !in argv && |argv| < 3
    ensures r.Parsed? ==>
      && None !in argv && |argv| >= 3
      && [r.args.moduleName, r.args.databaseName, r.args.tableName] + r.args.arguments == Texts(argv)
  {
    var args: seq<string> := [];
    var i := 0;
    while i < |argv|
      invariant 0 <= i <= |argv|
      invariant None !in argv[..i]
      invariant args == Texts(argv[..i])
    {
      if argv[i].None? {
        return Utf8Failure;
      }
      assert argv[..i + 1] == argv[..i] + [argv[i]];
      args := args + [argv[i].value];
      i := i + 1;
    }
    assert argv[..i] == argv;
    if |args| < 3 {
      return MissingArgv;
    }
    r := Parsed(VTabArguments(args[0], args[1], args[2], args[3..]));
    assert [args[0], args[1], args[2]] + args[3..] == args;
  }

  /** The constructor's arguments are argv[3..], one for one: `argc - 3` of them. */
  lemma CreateArgumentsAreTheTail(argv: seq<Option<string>>, a: VTabArguments)
    requires None !in argv && |argv| >= 3
    requires [a.moduleName, a.databaseName, a.tableName] + a.arguments == Texts(argv)
    ensures |a.arguments| == |argv| - 3
    ensures forall k :: 0 <= k < |a.arguments| ==> a.arguments[k] == argv[k + 3].value
    ensures a.moduleName == argv[0].value && a.tableName == argv[2].value
  {
    var whole := [a.moduleName, a.databaseName, a.tableName] + a.arguments;
    var texts := Texts(argv);
    assert |whole| == |texts| == |argv|;
    forall k | 0 <= k < |a.arguments|
      ensures a.arguments[k] == argv[k + 3].value
    {
      assert whole[k + 3] == a.arguments[k];
      assert texts[k + 3] == argv[k + 3].value;
    }
    assert texts[0] == argv[0].value && texts[2] == argv[2].value;
    assert whole[0] == a.moduleName && whole[2] == a.tableName;
  }
}
