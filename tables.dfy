/**
 * The tables the evaluator compares: what the backend returns for a query and
 * what a test case expects. A table is a sequence of named columns, in the
 * order the backend reports them; each column holds one cell per row, and a
 * cell is either a value or null (pandas' NaN).
 */
module Tables {
  import opened Wrappers

  /** A cell value. Only equality between values matters to the evaluator. */
  datatype Value = Int(i: int) | Text(s: string)

  /** `None` is a null / NaN cell. */
  type Cell = Option<Value>

  datatype Column = Column(name: string, cells: seq<Cell>)

  type Table = seq<Column>

  /** The set of column names of a table: `set(df.columns)`. */
  function Names(t: Table): set<string>
  {
    set i | 0 <= i < |t| :: t[i].name
  }

  lemma {:induction false} NamesCons(t: Table)
    requires t != []
    ensures Names(t) == {t[0].name} + Names(t[1..])
  {
    forall n | n in Names(t) ensures n in {t[0].name} + Names(t[1..]) {
      var i :| 0 <= i < |t| && t[i].name == n;
      if i > 0 { assert t[1..][i - 1].name == n; }
    }
    forall n | n in Names(t[1..]) ensures n in Names(t) {
      var i :| 0 <= i < |t[1..]| && t[1..][i].name == n;
      assert t[i + 1].name == n;
    }
  }

  /**
   * `df[name]`: the cells of the first column called `name`, or `None` where
   * pandas raises a KeyError.
   */
  function Lookup(t: Table, name: string): (r: Option<seq<Cell>>)
    ensures r.None? <==> name !in Names(t)
    ensures r.Some? ==> exists i :: 0 <= i < |t| && t[i] == Column(name, r.value)
  {
    if t == [] then None
    else
      NamesCons(t);
      if t[0].name == name then Some(t[0].cells)
      else
        var r := Lookup(t[1..], name);
        assert r.Some? ==> exists i :: 0 <= i < |t[1..]| && t[1..][i] == Column(name, r.value);
        assert r.Some? ==> exists i :: 0 <= i < |t| && t[i] == Column(name, r.value) by {
          if r.Some? {
            var i :| 0 <= i < |t[1..]| && t[1..][i] == Column(name, r.value);
            assert t[i + 1] == Column(name, r.value);
          }
        }
        r
  }

  /** `set(col.dropna().unique())`: the distinct non-null values of a column. */
  function NonNull(cells: seq<Cell>): (r: set<Value>)
    ensures forall v :: v in r <==> Some(v) in cells
  {
    if cells == [] then {}
    else
      var head: set<Value> := if cells[0].Some? then {cells[0].value} else {};
      assert forall v :: Some(v) in cells <==> Some(v) == cells[0] || Some(v) in cells[1..] by {
        assert cells == [cells[0]] + cells[1..];
      }
      head + NonNull(cells[1..])
  }

  /** Appends one row: row[i] becomes the last cell of column i. */
  function AddRow(t: Table, row: seq<Cell>): (r: Table)
    requires |row| == |t|
    ensures |r| == |t|
    ensures forall i :: 0 <= i < |t| ==> r[i] == Column(t[i].name, t[i].cells + [row[i]])
  {
    if t == [] then []
    else [Column(t[0].name, t[0].cells + [row[0]])] + AddRow(t[1..], row[1..])
  }

  /** Appends a null cell to column k. */
  function WithNull(t: Table, k: nat): (r: Table)
    requires k < |t|
    ensures |r| == |t| && r[k] == Column(t[k].name, t[k].cells + [None])
    ensures forall i :: 0 <= i < |t| && i != k ==> r[i] == t[i]
  {
    t[k := Column(t[k].name, t[k].cells + [None])]
  }

  /**
   * Two tables are value-equivalent when they have the same column names in
   * the same order and every column has the same distinct non-null values:
   * they differ at most in nulls, duplicates and row order.
   */
  ghost predicate ValueEquivalent(t: Table, u: Table)
  {
    && |t| == |u|
    && forall i :: 0 <= i < |t| ==> t[i].name == u[i].name && NonNull(t[i].cells) == NonNull(u[i].cells)
  }

  /** Every column of `t` has a same-named column in `u` holding at least its values. */
  ghost predicate Extends(t: Table, u: Table)
  {
    forall n :: n in Names(t) ==> Lookup(u, n).Some? && NonNull(Lookup(t, n).value) <= NonNull(Lookup(u, n).value)
  }

  lemma {:induction false} LookupEquivalent(t: Table, u: Table, name: string)
    requires ValueEquivalent(t, u)
    ensures Lookup(t, name).Some? <==> Lookup(u, name).Some?
    ensures Lookup(t, name).Some? ==> NonNull(Lookup(t, name).value) == NonNull(Lookup(u, name).value)
  {
    if t != [] {
      assert ValueEquivalent(t[1..], u[1..]) by {
        forall i | 0 <= i < |t[1..]|
          ensures t[1..][i].name == u[1..][i].name && NonNull(t[1..][i].cells) == NonNull(u[1..][i].cells)
        {
          assert t[1..][i] == t[i + 1] && u[1..][i] == u[i + 1];
        }
      }
      LookupEquivalent(t[1..], u[1..], name);
    }
  }

  lemma {:induction false} WithNullEquivalent(t: Table, k: nat)
    requires k < |t|
    ensures ValueEquivalent(t, WithNull(t, k))
  {
    assert NonNull(t[k].cells + [None]) == NonNull(t[k].cells);
  }

  lemma {:induction false} LookupAddRow(t: Table, row: seq<Cell>, name: string)
    requires |row| == |t|
    ensures Lookup(AddRow(t, row), name).Some? <==> Lookup(t, name).Some?
    ensures Lookup(t, name).Some? ==>
      var before, after := Lookup(t, name).value, Lookup(AddRow(t, row), name).value;
      |after| == |before| + 1 && after[..|before|] == before
  {
    if t != [] {
      var r := AddRow(t, row);
      assert r[1..] == AddRow(t[1..], row[1..]);
      LookupAddRow(t[1..], row[1..], name);
    }
  }

  /** Adding a row never removes a value from any column. */
  lemma {:induction false} AddRowExtends(t: Table, row: seq<Cell>)
    requires |row| == |t|
    ensures Extends(t, AddRow(t, row))
  {
    forall n | n in Names(t)
      ensures Lookup(AddRow(t, row), n).Some? && NonNull(Lookup(t, n).value) <= NonNull(Lookup(AddRow(t, row), n).value)
    {
      LookupAddRow(t, row, n);
      var before := Lookup(t, n).value;
      var after := Lookup(AddRow(t, row), n).value;
      forall v | v in NonNull(before) ensures v in NonNull(after) {
        var j :| 0 <= j < |before| && before[j] == Some(v);
        assert after[..|before|][j] == Some(v);
      }
    }
  }

  lemma {:induction false} LookupAppend(t: Table, extra: Table, name: string)
    requires name in Names(t)
    ensures Lookup(t + extra, name) == Lookup(t, name)
  {
    NamesCons(t);
    if t[0].name != name {
      assert (t + extra)[1..] == t[1..] + extra;
      LookupAppend(t[1..], extra, name);
    }
  }

  /** Columns appended after the existing ones never hide or shrink them. */
  lemma {:induction false} AppendColumnsExtends(t: Table, extra: Table)
    ensures Extends(t, t + extra)
  {
    forall n | n in Names(t) ensures Lookup(t + extra, n) == Lookup(t, n) {
      LookupAppend(t, extra, n);
    }
  }
}
