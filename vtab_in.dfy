/**
 * The `vtab_in` table function, in its two versions: the example that
 * prints the values of an `IN (...)` list, and the test fixture that
 * concatenates them into its `a` column. Both share one planner, which
 * binds every usable `=` on the hidden columns x and y to consecutive argv
 * slots and records one letter per slot in idxStr: `x` for x, `Y` for a y
 * whose whole IN list the engine will hand over at once, `y` otherwise.
 */
module VTabIn {
  import opened Wrappers
  import opened Table

  // Columns of `x(a, b, x hidden, y hidden)`.
  const ColumnA := 0
  const ColumnB := 1
  const ColumnX := 2
  const ColumnY := 3

  const PlanCost := 100000
  const PlanRows := 100000

  /** The cursor reports end of scan once its rowid reaches this. */
  const LastRowid := 10

  /** A constraint the planner does not stop at: unusable, or a usable `=` on x or y. */
  predicate Passes(c: IndexConstraint)
  {
    !c.usable || ((c.columnIdx == ColumnX || c.columnIdx == ColumnY) && Op(c) == Some(EQ))
  }

  /** The number of usable constraints. */
  function CountUsable(cs: seq<IndexConstraint>): (n: nat)
    ensures n <= |cs|
  {
    if |cs| == 0 then 0
    else CountUsable(cs[..|cs| - 1]) + (if cs[|cs| - 1].usable then 1 else 0)
  }

  /** The idxStr letter of a bound constraint. */
  function Letter(c: IndexConstraint, canProcessAllIn: bool): char
  {
    if c.columnIdx == ColumnX then 'x' else if canProcessAllIn then 'Y' else 'y'
  }

  /** The idxStr of a list of constraints: one letter per usable one, in order. */
  function Letters(cs: seq<IndexConstraint>, canAll: seq<bool>): (s: string)
    requires |canAll| == |cs|
  {
    if |cs| == 0 then ""
    else
      Letters(cs[..|cs| - 1], canAll[..|canAll| - 1])
        + (if cs[|cs| - 1].usable then [Letter(cs[|cs| - 1], canAll[|cs| - 1])] else "")
  }

  /** idxStr has exactly one letter per argv slot handed out. */
  lemma {:induction false} LettersCount(cs: seq<IndexConstraint>, canAll: seq<bool>)
    requires |canAll| == |cs|
    ensures |Letters(cs, canAll)| == CountUsable(cs)
  {
    if |cs| > 0 {
      LettersCount(cs[..|cs| - 1], canAll[..|canAll| - 1]);
    }
  }

  /** The letter at position `argvIndex - 1` of idxStr belongs to the constraint bound to that slot. */
  lemma {:induction false} LetterAtSlot(cs: seq<IndexConstraint>, canAll: seq<bool>, j: int)
    requires |canAll| == |cs| && 0 <= j < |cs| && cs[j].usable
    ensures CountUsable(cs[..j]) < |Letters(cs, canAll)|
    ensures Letters(cs, canAll)[CountUsable(cs[..j])] == Letter(cs[j], canAll[j])
    decreases |cs|
  {
    var n := |cs| - 1;
    var front, frontAll := cs[..n], canAll[..n];
    LettersCount(front, frontAll);
    if j < n {
      assert front[..j] == cs[..j];
      LetterAtSlot(front, frontAll, j);
    } else {
      assert front == cs[..j];
    }
  }

  /** Later usable constraints get later slots, so the slots 1..n are handed out once each. */
  lemma {:induction false} SlotsIncrease(cs: seq<IndexConstraint>, i: int, j: int)
    requires 0 <= i < j <= |cs| && cs[i].usable
    ensures CountUsable(cs[..i]) < CountUsable(cs[..j])
    decreases j - i
  {
    var front := cs[..j - 1];
    assert cs[..j][..j - 1] == front;
    if i < j - 1 {
      assert front[..i] == cs[..i];
      SlotsIncrease(cs, i, j - 1);
    } else {
      assert front == cs[..i];
    }
  }

  /** The usage entry the planner leaves for constraint `j` when it accepts the whole list. */
  function UsageOf(cs: seq<IndexConstraint>, j: int): ConstraintUsage
    requires 0 <= j < |cs|
  {
    if cs[j].usable then ConstraintUsage(CountUsable(cs[..j]) + 1, true) else Untouched
  }

  /** Whether the planner asks for constraint `j`'s whole IN list. */
  predicate EnablesAllIn(cs: seq<IndexConstraint>, canAll: seq<bool>, j: int)
    requires |canAll| == |cs| && 0 <= j < |cs|
  {
    cs[j].usable && cs[j].columnIdx == ColumnY && canAll[j]
  }

  /** What the planner's loop has built after some constraints: usage, the enable flags, idxStr, the next slot. */
  datatype Binding = Binding(usage: seq<ConstraintUsage>, enabled: seq<bool>, idxStr: string, argvIndex: int)

  /** The loop's state after the first `n` constraints, each one passed. */
  ghost function Bound(cs: seq<IndexConstraint>, canAll: seq<bool>, n: nat): (b: Binding)
    requires |canAll| == |cs| && n <= |cs|
    ensures |b.usage| == |cs| && |b.enabled| == |cs|
  {
    if n == 0 then Binding(seq(|cs|, _ => Untouched), seq(|cs|, _ => false), "", 1)
    else
      var b := Bound(cs, canAll, n - 1);
      var c := cs[n - 1];
      if !c.usable then b
      else
        Binding(
          b.usage[n - 1 := ConstraintUsage(b.argvIndex, true)],
          if c.columnIdx == ColumnY && canAll[n - 1] then b.enabled[n - 1 := true] else b.enabled,
          b.idxStr + [Letter(c, canAll[n - 1])],
          b.argvIndex + 1)
  }

  /**
   * The loop's state in closed form: the k-th usable constraint holds slot k,
   * idxStr spells their letters, and only y constraints that may take their
   * whole IN list are enabled.
   */
  lemma {:induction false} BoundClosedForm(cs: seq<IndexConstraint>, canAll: seq<bool>, n: nat)
    requires |canAll| == |cs| && n <= |cs|
    ensures var b := Bound(cs, canAll, n);
      && b.argvIndex == CountUsable(cs[..n]) + 1
      && b.idxStr == Letters(cs[..n], canAll[..n])
      && (forall j :: 0 <= j < n ==> b.usage[j] == UsageOf(cs, j))
      && (forall j :: n <= j < |cs| ==> b.usage[j] == Untouched)
      && (forall j :: 0 <= j < n ==> (b.enabled[j] <==> EnablesAllIn(cs, canAll, j)))
      && (forall j :: n <= j < |cs| ==> !b.enabled[j])
  {
    if n > 0 {
      BoundClosedForm(cs, canAll, n - 1);
      assert cs[..n][..n - 1] == cs[..n - 1] && canAll[..n][..n - 1] == canAll[..n - 1];
    }
  }

  /**
   * `InTable::best_index` (the same code in both versions). Unusable
   * constraints are skipped. The first usable constraint that is not an `=`
   * on x or y decides: a non-`=` on x or y gives SQLITE_CONSTRAINT, anything
   * on another column reaches `todo!()`. Otherwise the k-th usable constraint
   * gets argv slot k and is omitted, `enabled` says which y constraints
   * asked for their whole IN list, and idxStr spells one letter per slot.
   * `canAll[j]` is what `can_process_all_in` answers for constraint `j`.
   */
  method BestIndex(cs: seq<IndexConstraint>, canAll: seq<bool>) returns (r: PlanOutcome, enabled: seq<bool>)
    requires |canAll| == |cs|
    ensures var k := FirstRejected(cs, Passes);
      && (r.Aborted? <==> k < |cs| && cs[k].columnIdx != ColumnX && cs[k].columnIdx != ColumnY)
      && (r.Refused? <==> k < |cs| && (cs[k].columnIdx == ColumnX || cs[k].columnIdx == ColumnY))
      && (r.Refused? ==> r.error == ConstraintError)
    ensures r.Planned? ==>
      && |r.plan.usage| == |cs|
      && (forall j :: 0 <= j < |cs| ==> r.plan.usage[j] == UsageOf(cs, j))
      && r.plan.idxStr == Some(Letters(cs, canAll))
      && r.plan.cost == PlanCost && r.plan.rows == PlanRows && r.plan.idxNum == 1
      && |enabled| == |cs|
      && (forall j :: 0 <= j < |cs| ==> (enabled[j] <==> EnablesAllIn(cs, canAll, j)))
  {
    var usage := seq(|cs|, _ => Untouched);
    enabled := seq(|cs|, _ => false);
    var idxStr := "";
    var argvIndex := 1;
    var i := 0;
    while i < |cs|
      invariant 0 <= i <= |cs|
      invariant forall j :: 0 <= j < i ==> Passes(cs[j])
      invariant usage == Bound(cs, canAll, i).usage
      invariant enabled == Bound(cs, canAll, i).enabled
      invariant idxStr == Bound(cs, canAll, i).idxStr
      invariant argvIndex == Bound(cs, canAll, i).argvIndex
    {
      var c := cs[i];
      if !c.usable {
        i := i + 1;
        continue;
      }
      if c.columnIdx == ColumnX {
        if Op(c) == Some(EQ) {
          usage := usage[i := ConstraintUsage(argvIndex, true)];
          argvIndex := argvIndex + 1;
          idxStr := idxStr + ['x'];
        } else {
          FirstRejectedUnique(cs, Passes, i);
          return Refused(ConstraintError), enabled;
        }
      } else if c.columnIdx == ColumnY {
        if Op(c) == Some(EQ) {
          usage := usage[i := ConstraintUsage(argvIndex, true)];
          argvIndex := argvIndex + 1;
          if canAll[i] {
            idxStr := idxStr + ['Y'];
            enabled := enabled[i := true];
          } else {
            idxStr := idxStr + ['y'];
          }
        } else {
          FirstRejectedUnique(cs, Passes, i);
          return Refused(ConstraintError), enabled;
        }
      } else {
        FirstRejectedUnique(cs, Passes, i);
        return Aborted, enabled;
      }
      i := i + 1;
    }
    FirstRejectedUnique(cs, Passes, |cs|);
    BoundClosedForm(cs, canAll, |cs|);
    assert cs[..i] == cs && canAll[..i] == canAll;
    r := Planned(IndexPlan(usage, PlanCost, PlanRows, 1, Some(idxStr)));
  }

  /**
   * The plans behind the test's four `explain query plan` lines: no
   * constraint, `vtab_in(1)`, `y in (1,2,3)` and `y = 1`.
   */
  method QueryPlans() returns (plans: seq<PlanOutcome>)
    ensures |plans| == 4 && forall p :: p in plans ==> p.Planned? && p.plan.idxNum == 1
    ensures plans[0].plan.idxStr == Some("") && plans[1].plan.idxStr == Some("x")
    ensures plans[2].plan.idxStr == Some("Y") && plans[3].plan.idxStr == Some("y")
  {
    var eqX := IndexConstraint(ColumnX, 2, true);
    var eqY := IndexConstraint(ColumnY, 2, true);
    assert Passes(eqX) && Passes(eqY);
    FirstRejectedUnique([], Passes, 0);
    FirstRejectedUnique([eqX], Passes, 1);
    FirstRejectedUnique([eqY], Passes, 1);
    var none, _ := BestIndex([], []);
    var onX, _ := BestIndex([eqX], [false]);
    assert Letters([eqX], [false]) == "x" by {
      assert [eqX][..0] == [] && [false][..0] == [];
    }
    var inList, _ := BestIndex([eqY], [true]);
    assert Letters([eqY], [true]) == "Y" by {
      assert [eqY][..0] == [] && [true][..0] == [];
    }
    var single, _ := BestIndex([eqY], [false]);
    assert Letters([eqY], [false]) == "y" by {
      assert [eqY][..0] == [] && [false][..0] == [];
    }
    plans := [none, onX, inList, single];
  }

  // ---------------------------------------------------------------------
  // Cursors
  // ---------------------------------------------------------------------

  /**
   * The arguments xFilter receives, one per argv slot: for a `Y` slot, the
   * members of the IN list in the order the engine yields them. A member is
   * `None` when it cannot be read as UTF-8 text (either `unwrap` panics).
   */
  type InLists = seq<seq<Option<string>>>

  /** Every `Y` slot has an argument and every member of its list reads as text. */
  predicate Readable(idxStr: string, values: InLists)
  {
    forall k :: 0 <= k < |idxStr| && idxStr[k] == 'Y' ==> k < |values| && None !in values[k]
  }

  /** An IN list's members, concatenated. */
  function Concat(items: seq<Option<string>>): string
    requires None !in items
  {
    if |items| == 0 then "" else Concat(items[..|items| - 1]) + items[|items| - 1].value
  }

  /** The value the test cursor holds after the first `n` letters of idxStr. */
  function ValueAfter(idxStr: string, values: InLists, n: nat, start: Option<string>): Option<string>
    requires n <= |idxStr| && Readable(idxStr, values)
  {
    if n == 0 then start
    else if idxStr[n - 1] == 'Y' then Some(Concat(values[n - 1]))
    else ValueAfter(idxStr, values, n - 1, start)
  }

  /** With no `Y` slot among the first `n` letters, the value is left as it was. */
  lemma {:induction false} NoInListKeepsValue(idxStr: string, values: InLists, n: nat, start: Option<string>)
    requires n <= |idxStr| && Readable(idxStr, values)
    requires forall k :: 0 <= k < n ==> idxStr[k] != 'Y'
    ensures ValueAfter(idxStr, values, n, start) == start
  {
    if n > 0 {
      NoInListKeepsValue(idxStr, values, n - 1, start);
    }
  }

  /** The last `Y` slot among the first `n` letters decides the value. */
  lemma {:induction false} LastInListWins(idxStr: string, values: InLists, n: nat, start: Option<string>, k: nat)
    requires n <= |idxStr| && Readable(idxStr, values)
    requires k < n && idxStr[k] == 'Y'
    requires forall m :: k < m < n ==> idxStr[m] != 'Y'
    ensures ValueAfter(idxStr, values, n, start) == Some(Concat(values[k]))
  {
    if k < n - 1 {
      LastInListWins(idxStr, values, n - 1, start, k);
    }
  }

  /** The rowids a scan from `rowid` reports: Next adds one, Eof is `rowid >= 10`. */
  function Rowids(rowid: int): seq<int>
    decreases LastRowid - rowid
  {
    if rowid >= LastRowid then [] else [rowid] + Rowids(rowid + 1)
  }

  /** After filter (rowid 1) a scan reports rowids 1 to 9: nine rows. */
  lemma {:induction false} NineRows(rowid: int)
    requires 1 <= rowid <= LastRowid
    ensures |Rowids(rowid)| == LastRowid - rowid
    ensures forall k :: 0 <= k < |Rowids(rowid)| ==> Rowids(rowid)[k] == rowid + k
    decreases LastRowid - rowid
  {
    if rowid < LastRowid {
      NineRows(rowid + 1);
      var rest := Rowids(rowid + 1);
      forall k | 0 <= k < |Rowids(rowid)|
        ensures Rowids(rowid)[k] == rowid + k
      {
        if k > 0 {
          assert Rowids(rowid)[k] == rest[k - 1];
        }
      }
    }
  }

  /** What `column` writes: an integer, text, or nothing. */
  datatype ColumnResult = WroteInt(i: int) | WroteText(t: string) | NoResult

  /** `InCursor` of the example: a rowid only; the IN lists are read and printed. */
  class InCursor {
    var rowid: int

    constructor ()
      ensures rowid == 0
    {
      rowid := 0;
    }

    function Remaining(): seq<int>
      reads this
    {
      Rowids(rowid)
    }

    /**
     * `filter`: unwraps idxStr, reads every member of each `Y` slot's IN list
     * (printing left out), then sets rowid to 1. Any failed `unwrap` panics.
     */
    method Filter(idxStr: Option<string>, values: InLists) returns (outcome: FilterOutcome)
      modifies this
      ensures outcome == if idxStr.Some? && Readable(idxStr.value, values) then Filtered else FilterPanicked
      ensures outcome == Filtered ==> rowid == 1 && |Remaining()| == LastRowid - 1
    {
      if idxStr.None? {
        return FilterPanicked;
      }
      var s := idxStr.value;
      var k := 0;
      while k < |s|
        invariant 0 <= k <= |s|
        invariant Readable(s[..k], values)
      {
        if s[k] == 'Y' {
          if k >= |values| {
            return FilterPanicked;
          }
          var items := values[k];
          var m := 0;
          while m < |items|
            invariant 0 <= m <= |items|
            invariant None !in items[..m]
          {
            if items[m].None? {
              return FilterPanicked;
            }
            assert items[..m + 1] == items[..m] + [items[m]];
            m := m + 1;
          }
          assert items[..m] == items;
        }
        k := k + 1;
      }
      assert s[..k] == s;
      rowid := 1;
      NineRows(1);
      outcome := Filtered;
    }

    method Next()
      requires rowid + 1 <= Int64Max
      modifies this
      ensures rowid == old(rowid) + 1
      ensures !old(Eof()) ==> Remaining() == old(Remaining())[1..]
    {
      rowid := rowid + 1;
    }

    function Eof(): (b: bool)
      reads this
      ensures b <==> Remaining() == []
    {
      rowid >= LastRowid
    }

    /** `column`: a is 1000 + rowid, b is 2000 + rowid; x and y write nothing. */
    function Column(i: int): (r: ColumnResult)
      reads this
      ensures r.WroteInt? <==> i == ColumnA || i == ColumnB
      ensures i == ColumnA ==> r.i - 1000 == rowid
      ensures i == ColumnB ==> r.i - 2000 == rowid
    {
      if i == ColumnA then WroteInt(1000 + rowid)
      else if i == ColumnB then WroteInt(2000 + rowid)
      else NoResult
    }

    function Rowid(): (id: int)
      reads this
      ensures !Eof() ==> id == Remaining()[0]
    {
      rowid
    }
  }

  /** `InCursor` of the test fixture: a rowid and the concatenated IN list. */
  class InValueCursor {
    var rowid: int
    var value: Option<string>

    constructor ()
      ensures rowid == 0 && value == None
    {
      rowid, value := 0, None;
    }

    function Remaining(): seq<int>
      reads this
    {
      Rowids(rowid)
    }

    /**
     * `filter`: for each `Y` slot, concatenates the text of its IN list's
     * members into `value` (a later `Y` slot replaces an earlier one; `x`
     * and `y` slots leave it alone), then sets rowid to 1.
     */
    method Filter(idxStr: Option<string>, values: InLists) returns (outcome: FilterOutcome)
      modifies this
      ensures outcome == if idxStr.Some? && Readable(idxStr.value, values) then Filtered else FilterPanicked
      ensures outcome == Filtered ==>
        && rowid == 1 && |Remaining()| == LastRowid - 1
        && value == ValueAfter(idxStr.value, values, |idxStr.value|, old(value))
    {
      if idxStr.None? {
        return FilterPanicked;
      }
      var s := idxStr.value;
      var k := 0;
      while k < |s|
        invariant 0 <= k <= |s|
        invariant Readable(s[..k], values)
        invariant Readable(s, values) ==> value == ValueAfter(s, values, k, old(value))
      {
        if s[k] == 'Y' {
          if k >= |values| {
            return FilterPanicked;
          }
          var items := values[k];
          var text := "";
          var m := 0;
          while m < |items|
            invariant 0 <= m <= |items|
            invariant None !in items[..m]
            invariant text == Concat(items[..m])
          {
            if items[m].None? {
              return FilterPanicked;
            }
            assert items[..m + 1] == items[..m] + [items[m]];
            text := text + items[m].value;
            m := m + 1;
          }
          assert items[..m] == items;
          value := Some(text);
        }
        assert s[..k + 1] == s[..k] + [s[k]];
        k := k + 1;
      }
      assert s[..k] == s;
      rowid := 1;
      NineRows(1);
      outcome := Filtered;
    }

    method Next()
      requires rowid + 1 <= Int64Max
      modifies this
      ensures rowid == old(rowid) + 1 && value == old(value)
      ensures !old(Eof()) ==> Remaining() == old(Remaining())[1..]
    {
      rowid := rowid + 1;
    }

    function Eof(): (b: bool)
      reads this
      ensures b <==> Remaining() == []
    {
      rowid >= LastRowid
    }

    /** `column`: a is the concatenation, or "" when none was made; the rest write nothing. */
    function Column(i: int): (r: ColumnResult)
      reads this
      ensures r.WroteText? <==> i == ColumnA
      ensures i == ColumnA ==> r.t == (if value.Some? then value.value else "")
    {
      if i == ColumnA then WroteText(if value.Some? then value.value else "")
      else NoResult
    }

    function Rowid(): (id: int)
      reads this
      ensures !Eof() ==> id == Remaining()[0]
    {
      rowid
    }
  }

  /**
   * The test's two reads of column a: `y = 1` plans "y" and leaves a fresh
   * cursor's value empty, `y in (1,2,3)` plans "Y" and concatenates "123".
   */
  method ColumnAValues() returns (single: ColumnResult, inList: ColumnResult)
    ensures single == WroteText("") && inList == WroteText("123")
  {
    var c1 := new InValueCursor();
    var o1 := c1.Filter(Some("y"), [[Some("1")]]);
    assert ValueAfter("y", [[Some("1")]], 1, None) == None;
    single := c1.Column(ColumnA);
    var c2 := new InValueCursor();
    var list := [Some("1"), Some("2"), Some("3")];
    var o2 := c2.Filter(Some("Y"), [list]);
    assert Concat(list) == "123" by {
      assert list[..2] == [Some("1"), Some("2")];
      assert list[..2][..1] == [Some("1")];
    }
    inList := c2.Column(ColumnA);
  }
}
