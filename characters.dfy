/**
 * The `characters` table function: given `input = ?`, one row per character
 * of the input, with the character's 0-based position as rowid.
 */
module Characters {
  import opened Wrappers
  import opened Table

  // Columns of `x(value, input hidden)`.
  const ColumnValue := 0
  const ColumnInput := 1

  const PlanCost := 100000
  const PlanRows := 100000

  /** A constraint the planner takes: a usable `=` on input. */
  predicate Binds(c: IndexConstraint)
  {
    c.columnIdx == ColumnInput && c.usable && Op(c) == Some(EQ)
  }

  /**
   * `CharactersTable::best_index`. The first constraint that is not a usable
   * `=` on input decides: one on input gives SQLITE_CONSTRAINT, one on any
   * other column reaches `todo!()`. Otherwise there must be at least one
   * constraint; every one is bound to argv 1 and omitted.
   */
  method BestIndex(cs: seq<IndexConstraint>) returns (r: PlanOutcome)
    ensures var k := FirstRejected(cs, Binds);
      && (r.Aborted? <==> k < |cs| && cs[k].columnIdx != ColumnInput)
      && (r == Refused(ConstraintError) <==> k < |cs| && cs[k].columnIdx == ColumnInput)
      && (r == Refused(GeneralError) <==> |cs| == 0)
    ensures r.Planned? ==>
      && |r.plan.usage| == |cs|
      && (forall j :: 0 <= j < |cs| ==> r.plan.usage[j] == ConstraintUsage(1, true))
      && r.plan.cost == PlanCost && r.plan.rows == PlanRows
      && r.plan.idxNum == 1 && r.plan.idxStr == None
  {
    var usage := seq(|cs|, _ => Untouched);
    var hasInput := false;
    var i := 0;
    while i < |cs|
      invariant 0 <= i <= |cs|
      invariant forall j :: 0 <= j < i ==> Binds(cs[j])
      invariant hasInput <==> i > 0
      invariant |usage| == |cs|
      invariant forall j :: 0 <= j < i ==> usage[j] == ConstraintUsage(1, true)
    {
      var c := cs[i];
      if c.columnIdx == ColumnInput {
        if c.usable && Op(c) == Some(EQ) {
          usage := usage[i := ConstraintUsage(1, true)];
          hasInput := true;
        } else {
          FirstRejectedUnique(cs, Binds, i);
          return Refused(ConstraintError);
        }
      } else {
        FirstRejectedUnique(cs, Binds, i);
        return Aborted;
      }
      i := i + 1;
    }
    FirstRejectedUnique(cs, Binds, |cs|);
    if !hasInput {
      return Refused(GeneralError);
    }
    r := Planned(IndexPlan(usage, PlanCost, PlanRows, 1, None));
  }

  // ---------------------------------------------------------------------
  // Cursor
  // ---------------------------------------------------------------------

  /** One row: its rowid and the text of the value column. */
  datatype Row = Row(rowid: int, value: string)

  /** The rows a scan from position `idx` emits: Next adds one, Eof is running off the end. */
  function Scan(chars: seq<char>, idx: nat): seq<Row>
    decreases |chars| - idx
  {
    if idx >= |chars| then [] else [Row(idx, [chars[idx]])] + Scan(chars, idx + 1)
  }

  /** From position `idx`, the k-th row holds character `idx + k` and has rowid `idx + k`. */
  lemma {:induction false} ScanIsSuffix(chars: seq<char>, idx: nat)
    ensures |Scan(chars, idx)| == if idx <= |chars| then |chars| - idx else 0
    ensures forall k :: 0 <= k < |Scan(chars, idx)| ==>
      Scan(chars, idx)[k] == Row(idx + k, [chars[idx + k]])
    decreases |chars| - idx
  {
    if idx < |chars| {
      ScanIsSuffix(chars, idx + 1);
      var rest := Scan(chars, idx + 1);
      forall k | 0 <= k < |Scan(chars, idx)|
        ensures Scan(chars, idx)[k] == Row(idx + k, [chars[idx + k]])
      {
        if k > 0 {
          assert Scan(chars, idx)[k] == rest[k - 1];
        }
      }
    }
  }

  /** Concatenating the value column of a whole scan gives the input back. */
  lemma {:induction false} ScanSpellsInput(chars: seq<char>, idx: nat)
    requires idx <= |chars|
    ensures Spelled(Scan(chars, idx)) == chars[idx..]
    decreases |chars| - idx
  {
    if idx < |chars| {
      ScanSpellsInput(chars, idx + 1);
      assert chars[idx..] == [chars[idx]] + chars[idx + 1..];
    }
  }

  /** The value column of each row, concatenated. */
  function Spelled(rows: seq<Row>): string
  {
    if |rows| == 0 then [] else rows[0].value + Spelled(rows[1..])
  }

  /** What `column` writes: text, nothing, or a panic from an `unwrap`. */
  datatype ColumnResult = Wrote(text: string) | NoResult | ColumnPanicked

  /** `CharactersCursor`: the input, its characters, and the current position. */
  class CharactersCursor {
    var input: Option<string>
    var characters: Option<seq<char>>
    var idx: nat

    /** `CharactersCursor::new`: nothing stored yet, position 0. */
    constructor ()
      ensures input == None && characters == None && idx == 0
    {
      input, characters, idx := None, None, 0;
    }

    /** The rows the rest of the scan emits; none before a filter. */
    function Remaining(): seq<Row>
      reads this
    {
      if characters.None? then [] else Scan(characters.value, idx)
    }

    /**
     * `filter`: argv 1 must exist (an `expect`) and be valid UTF-8 (`?`, an
     * error result). Its text and its characters are stored and the position
     * goes back to 0. An argument is `None` when its bytes are not UTF-8.
     */
    method Filter(values: seq<Option<string>>) returns (outcome: FilterOutcome)
      modifies this
      ensures outcome == if |values| == 0 then FilterPanicked
                         else if values[0].None? then FilterFailed
                         else Filtered
      ensures outcome == Filtered ==>
        && input == values[0] && characters == values[0] && idx == 0
        && Remaining() == Scan(values[0].value, 0)
      ensures outcome != Filtered ==> input == old(input) && characters == old(characters) && idx == old(idx)
    {
      if |values| == 0 {
        return FilterPanicked;
      }
      if values[0].None? {
        return FilterFailed;
      }
      var text := values[0].value;
      characters := Some(text);
      input := Some(text);
      idx := 0;
      outcome := Filtered;
    }

    /** `next`: one position on; the scan loses its first row. */
    method Next()
      modifies this
      ensures idx == old(idx) + 1 && input == old(input) && characters == old(characters)
      ensures !old(Eof()) ==> Remaining() == old(Remaining())[1..]
    {
      idx := idx + 1;
    }

    /** `eof`: no characters stored, or the position is past the last one. */
    function Eof(): (b: bool)
      reads this
      ensures b <==> Remaining() == []
    {
      match characters
      case None => true
      case Some(chars) => idx >= |chars|
    }

    /** `column`: the current character, or the whole input; it panics when the cursor has none. */
    function Column(i: int): (r: ColumnResult)
      reads this
      ensures i == ColumnValue && !Eof() ==> r == Wrote(Remaining()[0].value)
      ensures i == ColumnValue && Eof() ==> r == ColumnPanicked
      ensures i == ColumnInput ==> r == if input.Some? then Wrote(input.value) else ColumnPanicked
      ensures i != ColumnValue && i != ColumnInput ==> r == NoResult
    {
      if i == ColumnValue then
        if characters.None? || idx >= |characters.value| then ColumnPanicked
        else Wrote([characters.value[idx]])
      else if i == ColumnInput then
        if input.None? then ColumnPanicked else Wrote(input.value)
      else NoResult
    }

    /** `rowid`: the current position. */
    function Rowid(): (id: int)
      reads this
      ensures !Eof() ==> id == Remaining()[0].rowid
    {
      idx
    }
  }
}
