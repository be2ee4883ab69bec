/**
 * The two checks the evaluator applies to a successful execution: the schema
 * check (are the expected column names among the returned ones?) and the data
 * check (for each expected column, are its distinct non-null values among the
 * returned column's?).
 */
module Checks {
  import opened Wrappers
  import opened Tables

  /** Exceptions that escape the evaluator and abort the whole run. */
  datatype Fault =
    | MissingColumn(name: string)     // KeyError from `actual_data[col]`
    | NoExpectedData                  // the test case's expected_data was never filled in
    | GenerationFailed(message: string)
    | DivisionByZero                  // metrics over an empty batch

  /** check_schema_match: `expected_columns.issubset(set(actual.columns))`. */
  function SchemaMatches(actual: Table, expectedColumns: set<string>): (r: bool)
    ensures r <==> forall c :: c in expectedColumns ==> Lookup(actual, c).Some?
  {
    expectedColumns <= Names(actual)
  }

  /** Expected column `col` is covered by `actual`: a same-named column holds all its non-null values. */
  ghost predicate Covers(actual: Table, col: Column)
  {
    Lookup(actual, col.name).Some? && NonNull(col.cells) <= NonNull(Lookup(actual, col.name).value)
  }

  /**
   * check_data_correctness: walk the expected columns in order; a column missing
   * from `actual` raises, a column whose values are not covered returns false.
   */
  function DataCheck(actual: Table, expected: Table): Result<bool, Fault>
  {
    if expected == [] then Success(true)
    else
      match Lookup(actual, expected[0].name)
      case None => Failure(MissingColumn(expected[0].name))
      case Some(cells) =>
        if NonNull(expected[0].cells) <= NonNull(cells) then DataCheck(actual, expected[1..])
        else Success(false)
  }

  /** The loop of check_data_correctness, with its early return. */
  method CheckDataCorrectness(actual: Table, expected: Table) returns (r: Result<bool, Fault>)
    ensures r == DataCheck(actual, expected)
  {
    var i := 0;
    while i < |expected|
      invariant 0 <= i <= |expected|
      invariant DataCheck(actual, expected) == DataCheck(actual, expected[i..])
    {
      var col := expected[i];
      var expectedVals := NonNull(col.cells);
      var found := Lookup(actual, col.name);
      if found.None? {
        return Failure(MissingColumn(col.name));
      }
      var actualVals := NonNull(found.value);
      if !(expectedVals <= actualVals) {
        return Success(false);
      }
      assert expected[i..][1..] == expected[i + 1..];
      i := i + 1;
    }
    return Success(true);
  }

  // ---------- Schema check ----------

  /** Reordering the returned columns never changes the schema verdict. */
  lemma {:induction false} SchemaIgnoresColumnOrder(actual: Table, permuted: Table, expectedColumns: set<string>)
    requires multiset(actual) == multiset(permuted)
    ensures SchemaMatches(actual, expectedColumns) == SchemaMatches(permuted, expectedColumns)
  {
    PermutedNames(actual, permuted);
    PermutedNames(permuted, actual);
  }

  lemma {:induction false} PermutedNames(t: Table, u: Table)
    requires multiset(t) == multiset(u)
    ensures Names(t) <= Names(u)
  {
    forall n | n in Names(t) ensures n in Names(u) {
      var i :| 0 <= i < |t| && t[i].name == n;
      assert t[i] in multiset(u);
      var j :| 0 <= j < |u| && u[j] == t[i];
    }
  }

  /** Extra returned columns, wherever they are inserted, never turn a match into a mismatch. */
  lemma {:induction false} SchemaIgnoresExtraColumns(front: Table, back: Table, extra: Table, expectedColumns: set<string>)
    requires SchemaMatches(front + back, expectedColumns)
    ensures SchemaMatches(front + extra + back, expectedColumns)
  {
    forall n | n in Names(front + back) ensures n in Names(front + extra + back) {
      var i :| 0 <= i < |front + back| && (front + back)[i].name == n;
      if i < |front| {
        assert (front + extra + back)[i] == front[i];
      } else {
        assert (front + extra + back)[i + |extra|] == back[i - |front|];
      }
    }
  }

  /**
   * Inserted columns whose names are not expected leave the schema verdict as
   * it was, in both directions: a match stays a match and a mismatch a mismatch.
   */
  lemma {:induction false} SchemaIgnoresUnexpectedColumns(front: Table, back: Table, extra: Table, expectedColumns: set<string>)
    requires forall i :: 0 <= i < |extra| ==> extra[i].name !in expectedColumns
    ensures SchemaMatches(front + extra + back, expectedColumns) == SchemaMatches(front + back, expectedColumns)
  {
    if SchemaMatches(front + back, expectedColumns) {
      SchemaIgnoresExtraColumns(front, back, extra, expectedColumns);
    } else {
      var c :| c in expectedColumns && c !in Names(front + back);
      var t := front + extra + back;
      forall i | 0 <= i < |t| ensures t[i].name != c {
        if i < |front| {
          assert t[i] == (front + back)[i];
        } else if i < |front| + |extra| {
          assert t[i] == extra[i - |front|];
        } else {
          assert t[i] == (front + back)[i - |extra|];
        }
      }
    }
  }

  // ---------- Data check ----------

  /** The data check passes exactly when every expected column is covered. */
  lemma {:induction false} DataCheckPasses(actual: Table, expected: Table)
    ensures DataCheck(actual, expected) == Success(true) <==> forall i :: 0 <= i < |expected| ==> Covers(actual, expected[i])
  {
    if expected != [] {
      DataCheckPasses(actual, expected[1..]);
      assert forall i :: 1 <= i < |expected| ==> expected[i] == expected[1..][i - 1];
    }
  }

  /** The expected column at index k is the first one the walk cannot look up. */
  ghost predicate FirstMissing(actual: Table, expected: Table, k: int)
  {
    && 0 <= k < |expected|
    && Lookup(actual, expected[k].name).None?
    && forall j :: 0 <= j < k ==> Covers(actual, expected[j])
  }

  /**
   * The data check raises exactly when it reaches an expected column that
   * `actual` lacks before it finds an uncovered one, and then names that column.
   */
  lemma {:induction false} DataCheckFaults(actual: Table, expected: Table)
    ensures DataCheck(actual, expected).Failure? <==> exists k :: FirstMissing(actual, expected, k)
    ensures forall k :: FirstMissing(actual, expected, k) ==> DataCheck(actual, expected) == Failure(MissingColumn(expected[k].name))
  {
    if expected != [] {
      if Lookup(actual, expected[0].name).None? {
        assert FirstMissing(actual, expected, 0);
        forall k | FirstMissing(actual, expected, k) ensures k == 0 {
          if k > 0 { assert false; }
        }
      } else if !Covers(actual, expected[0]) {
        forall k | FirstMissing(actual, expected, k) ensures false {
          if k > 0 { assert false; }
        }
      } else {
        DataCheckFaults(actual, expected[1..]);
        forall k | FirstMissing(actual, expected[1..], k) ensures FirstMissing(actual, expected, k + 1) {
          forall j | 0 <= j < k + 1 ensures Covers(actual, expected[j]) {
            if j > 0 { assert expected[j] == expected[1..][j - 1]; }
          }
        }
        forall k | FirstMissing(actual, expected, k) ensures 0 < k && FirstMissing(actual, expected[1..], k - 1) {
          assert forall j :: 0 <= j < k - 1 ==> expected[1..][j] == expected[j + 1];
        }
      }
    }
  }

  /** When every expected column name is present, the data check never raises. */
  lemma {:induction false} AllPresentNeverFaults(actual: Table, expected: Table)
    requires forall i :: 0 <= i < |expected| ==> expected[i].name in Names(actual)
    ensures DataCheck(actual, expected).Success?
  {
    DataCheckFaults(actual, expected);
  }

  /** The walk over expected columns splits at any point. */
  lemma {:induction false} DataCheckConcat(actual: Table, first: Table, second: Table)
    ensures DataCheck(actual, first + second) ==
      if DataCheck(actual, first) == Success(true) then DataCheck(actual, second) else DataCheck(actual, first)
  {
    if first != [] {
      assert (first + second)[0] == first[0];
      assert (first + second)[1..] == first[1..] + second;
      DataCheckConcat(actual, first[1..], second);
    } else {
      assert first + second == second;
    }
  }

  /**
   * An expected column with no non-null values passes whatever the returned
   * column holds, so removing it (its name being present) changes nothing.
   */
  lemma {:induction false} AllNullColumnPasses(actual: Table, before: Table, col: Column, after: Table)
    requires NonNull(col.cells) == {}
    requires col.name in Names(actual)
    ensures DataCheck(actual, before + [col] + after) == DataCheck(actual, before + after)
  {
    DataCheckConcat(actual, before + [col], after);
    DataCheckConcat(actual, before, [col]);
    DataCheckConcat(actual, before, after);
    assert DataCheck(actual, [col]) == DataCheck(actual, []) by {
      assert [col][1..] == [];
    }
  }

  /** Value-equivalent tables (differing only in nulls, repeats and row order) get the same verdict. */
  lemma {:induction false} DataCheckRespectsValues(actual: Table, actual': Table, expected: Table, expected': Table)
    requires ValueEquivalent(actual, actual')
    requires ValueEquivalent(expected, expected')
    ensures DataCheck(actual, expected) == DataCheck(actual', expected')
  {
    if expected != [] {
      LookupEquivalent(actual, actual', expected[0].name);
      assert expected[0].name == expected'[0].name;
      assert ValueEquivalent(expected[1..], expected'[1..]) by {
        forall i | 0 <= i < |expected[1..]|
          ensures expected[1..][i].name == expected'[1..][i].name && NonNull(expected[1..][i].cells) == NonNull(expected'[1..][i].cells)
        {
          assert expected[1..][i] == expected[i + 1] && expected'[1..][i] == expected'[i + 1];
        }
      }
      DataCheckRespectsValues(actual, actual', expected[1..], expected'[1..]);
    }
  }

  /** Adding a null to any returned column and to any expected column leaves the verdict as it was. */
  lemma {:induction false} DataCheckIgnoresNulls(actual: Table, i: nat, expected: Table, j: nat)
    requires i < |actual| && j < |expected|
    ensures DataCheck(WithNull(actual, i), WithNull(expected, j)) == DataCheck(actual, expected)
  {
    WithNullEquivalent(actual, i);
    WithNullEquivalent(expected, j);
    DataCheckRespectsValues(actual, WithNull(actual, i), expected, WithNull(expected, j));
  }

  /** A pass survives any growth of the returned columns' values. */
  lemma {:induction false} DataCheckMonotone(actual: Table, actual': Table, expected: Table)
    requires DataCheck(actual, expected) == Success(true)
    requires Extends(actual, actual')
    ensures DataCheck(actual', expected) == Success(true)
  {
    DataCheckPasses(actual, expected);
    DataCheckPasses(actual', expected);
    forall i | 0 <= i < |expected| ensures Covers(actual', expected[i]) {
      assert Covers(actual, expected[i]);
    }
  }

  /** Extra returned rows, or extra returned columns after the existing ones, never turn a pass into a fail. */
  lemma {:induction false} DataCheckIgnoresExtraRows(actual: Table, row: seq<Cell>, extra: Table, expected: Table)
    requires |row| == |actual|
    requires DataCheck(actual, expected) == Success(true)
    ensures DataCheck(AddRow(actual, row), expected) == Success(true)
    ensures DataCheck(actual + extra, expected) == Success(true)
  {
    AddRowExtends(actual, row);
    DataCheckMonotone(actual, AddRow(actual, row), expected);
    AppendColumnsExtends(actual, extra);
    DataCheckMonotone(actual, actual + extra, expected);
  }
}
