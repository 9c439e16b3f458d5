/**
 * The validation-error panel (`src/components/data-mapping/ValidationSummary.tsx`):
 * the error records grouped by row, listed in ascending row order (the
 * grouping object's keys are row numbers, and a JavaScript object lists
 * integer-like keys in ascending numeric order), each group keeping its
 * records in input order, plus the set of expanded rows that a click
 * toggles.
 */
module ValidationSummary {
  import opened Common
  import opened Validation

  /** The grouping object as its entries: row number and that row's records. */
  type Groups = seq<(nat, seq<ValidationError>)>

  /** Row numbers strictly ascending: every key once, in numeric order. */
  predicate StrictlySorted(gs: Groups)
  {
    |gs| <= 1 || (gs[0].0 < gs[1].0 && StrictlySorted(gs[1..]))
  }

  /** The records listed under `row`, or none when the row has no entry. */
  function GroupFor(gs: Groups, row: nat): seq<ValidationError>
  {
    if gs == [] then []
    else if gs[0].0 == row then gs[0].1
    else GroupFor(gs[1..], row)
  }

  /** The row numbers that have an entry. */
  function RowsOf(gs: Groups): set<nat>
  {
    if gs == [] then {} else {gs[0].0} + RowsOf(gs[1..])
  }

  /** The number of records over all groups. */
  function TotalSize(gs: Groups): nat
  {
    if gs == [] then 0 else |gs[0].1| + TotalSize(gs[1..])
  }

  /**
   * One step of the `reduce`: `acc[error.row] = acc[error.row] || []` and
   * push, with the new key placed at its numeric position.
   */
  function AddToGroups(gs: Groups, e: ValidationError): (r: Groups)
    ensures |r| >= 1
  {
    if gs == [] then [(e.row, [e])]
    else if gs[0].0 == e.row then [(gs[0].0, gs[0].1 + [e])] + gs[1..]
    else if e.row < gs[0].0 then [(e.row, [e])] + gs
    else [gs[0]] + AddToGroups(gs[1..], e)
  }

  /** The grouping object after the `reduce` has seen `errors`. */
  function GroupsOf(errors: seq<ValidationError>): Groups
  {
    if errors == [] then []
    else AddToGroups(GroupsOf(errors[..|errors| - 1]), errors[|errors| - 1])
  }

  /** The records of `errors` whose row is `row`, in input order. */
  function ErrorsOfRow(errors: seq<ValidationError>, row: nat): seq<ValidationError>
  {
    if errors == [] then []
    else
      var last := errors[|errors| - 1];
      ErrorsOfRow(errors[..|errors| - 1], row) + (if last.row == row then [last] else [])
  }

  lemma {:induction false} AddKeepsSorted(gs: Groups, e: ValidationError)
    requires StrictlySorted(gs)
    ensures StrictlySorted(AddToGroups(gs, e))
    ensures AddToGroups(gs, e)[0].0 == (if gs == [] || e.row < gs[0].0 then e.row else gs[0].0)
  {
    if gs != [] && gs[0].0 != e.row && e.row >= gs[0].0 {
      AddKeepsSorted(gs[1..], e);
      assert AddToGroups(gs, e)[1..] == AddToGroups(gs[1..], e);
    } else if gs != [] && gs[0].0 == e.row {
      assert AddToGroups(gs, e)[1..] == gs[1..];
    } else if gs != [] {
      assert AddToGroups(gs, e)[1..] == gs;
    }
  }

  /** Adding a record extends exactly its row's group. */
  lemma {:induction false} AddGroupFor(gs: Groups, e: ValidationError, row: nat)
    requires StrictlySorted(gs)
    ensures GroupFor(AddToGroups(gs, e), row) == GroupFor(gs, row) + (if row == e.row then [e] else [])
  {
    if gs == [] {
    } else if gs[0].0 == e.row {
    } else if e.row < gs[0].0 {
      if row == e.row {
        GroupForBelow(gs, row);
      }
    } else {
      AddGroupFor(gs[1..], e, row);
    }
  }

  /** A row below the first key has no group. */
  lemma {:induction false} GroupForBelow(gs: Groups, row: nat)
    requires StrictlySorted(gs) && gs != [] && row < gs[0].0
    ensures GroupFor(gs, row) == []
  {
    if |gs| > 1 {
      GroupForBelow(gs[1..], row);
    }
  }

  /** Adding a record adds one to the total and its row to the rows. */
  lemma {:induction false} AddCounts(gs: Groups, e: ValidationError)
    ensures TotalSize(AddToGroups(gs, e)) == TotalSize(gs) + 1
    ensures RowsOf(AddToGroups(gs, e)) == RowsOf(gs) + {e.row}
  {
    var r := AddToGroups(gs, e);
    if gs == [] {
    } else if gs[0].0 == e.row {
      assert r[1..] == gs[1..];
    } else if e.row < gs[0].0 {
      assert r[1..] == gs;
    } else {
      AddCounts(gs[1..], e);
      assert r[1..] == AddToGroups(gs[1..], e);
    }
  }

  /**
   * The grouping of `errors`: rows in ascending order, each once; every
   * row's group is exactly that row's records in input order; the rows
   * are exactly the records' rows; the group sizes add up to the number
   * of records, the count shown in the heading.
   */
  lemma {:induction false} GroupsOfSpec(errors: seq<ValidationError>)
    ensures StrictlySorted(GroupsOf(errors))
    ensures forall row :: GroupFor(GroupsOf(errors), row) == ErrorsOfRow(errors, row)
    ensures RowsOf(GroupsOf(errors)) == set e | e in errors :: e.row
    ensures TotalSize(GroupsOf(errors)) == |errors|
  {
    if errors != [] {
      var init := errors[..|errors| - 1];
      var last := errors[|errors| - 1];
      GroupsOfSpec(init);
      var gs := GroupsOf(init);
      AddKeepsSorted(gs, last);
      forall row ensures GroupFor(GroupsOf(errors), row) == ErrorsOfRow(errors, row) {
        AddGroupFor(gs, last, row);
      }
      AddCounts(gs, last);
      RowsOfLast(errors);
    }
  }

  /** The rows of the records are those of all but the last, plus the last one's. */
  lemma RowsOfLast(errors: seq<ValidationError>)
    requires errors != []
    ensures (set e | e in errors :: e.row) ==
            (set e | e in errors[..|errors| - 1] :: e.row) + {errors[|errors| - 1].row}
  {
    assert errors == errors[..|errors| - 1] + [errors[|errors| - 1]];
  }

  /** `errorsByRow`: the `reduce` over the records. */
  method GroupErrorsByRow(errors: seq<ValidationError>) returns (acc: Groups)
    ensures acc == GroupsOf(errors)
    ensures StrictlySorted(acc) && TotalSize(acc) == |errors|
    ensures forall row :: GroupFor(acc, row) == ErrorsOfRow(errors, row)
  {
    acc := [];
    var i := 0;
    while i < |errors|
      invariant 0 <= i <= |errors|
      invariant acc == GroupsOf(errors[..i])
    {
      assert errors[..i + 1][..i] == errors[..i];
      acc := AddToGroups(acc, errors[i]);
      i := i + 1;
    }
    assert errors[..i] == errors;
    GroupsOfSpec(errors);
  }

  /** `rowErrors.length === 1 ? 'error' : 'errors'` */
  function ErrorLabel(count: nat): (word: string)
    ensures word == "error" <==> count == 1
    ensures word == "errors" <==> count != 1
  {
    if count == 1 then "error" else "errors"
  }

  /** The expanded rows of the panel. */
  class RowExpansion {
    var expandedRows: set<int>

    constructor()
      ensures expandedRows == {}
    {
      expandedRows := {};
    }

    /** `toggleRow` */
    method ToggleRow(rowIndex: int)
      modifies this
      ensures expandedRows == Toggled(old(expandedRows), rowIndex)
    {
      var next := expandedRows;
      if rowIndex in next {
        next := next - {rowIndex};
      } else {
        next := next + {rowIndex};
      }
      expandedRows := next;
    }

    /**
     * The click handler of a group: its key is the row number written in
     * decimal, and `parseInt` of that key toggles that row.
     */
    method ToggleGroup(row: nat)
      modifies this
      ensures expandedRows == Toggled(old(expandedRows), row)
    {
      var parsed := ParseInt(DecimalString(row));
      ParseIntDecimalString(row);
      ToggleRow(parsed.value);
    }
  }
}
