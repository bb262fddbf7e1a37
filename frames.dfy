/** Data frames as the ingestion step uses them: named columns of cells,
    column assignment (`df[name] = v`), renaming (`df.rename(columns=...)`)
    and row-wise concatenation (`pd.concat(dfs, ignore_index=True)`). */
module Frames {
  import opened Calendar

  /** One cell. `Null` is the missing value (None or NaN), `Text` a string,
      `Instant` a timestamp, and `Datum` any other value read from a file,
      compared only for equality. */
  datatype Value = Null | Text(text: string) | Instant(at: DateTime) | Datum(code: int)

  /** A frame by columns: the column names in order, one cell sequence per
      column, and the row count (kept apart, since a frame may have rows but
      no columns). */
  datatype Table = Table(columns: seq<string>, cells: seq<seq<Value>>, rows: nat)

  /** `pd.DataFrame()`: no columns, no rows. */
  const Empty: Table := Table([], [], 0)

  /** Positions `i` and `j` of `names`, when `i` comes first, carry
      different names. */
  predicate Apart(names: seq<string>, i: int, j: int)
  {
    0 <= i < j < |names| ==> names[i] != names[j]
  }

  /** No name occurs twice. The pairs are only looked at through `Apart`,
      so that a proof about many positions does not compare all of them. */
  predicate Distinct(names: seq<string>)
  {
    forall i, j {:trigger Apart(names, i, j)} | 0 <= i < j < |names| :: Apart(names, i, j)
  }

  lemma DistinctAt(names: seq<string>, i: nat, j: nat)
    requires Distinct(names) && i < |names| && j < |names| && i != j
    ensures names[i] != names[j]
  {
    if i < j { assert Apart(names, i, j); } else { assert Apart(names, j, i); }
  }

  /** Appending a new name keeps the names distinct. */
  lemma DistinctSnoc(names: seq<string>, x: string)
    requires Distinct(names) && x !in names
    ensures Distinct(names + [x])
  {
    var s := names + [x];
    forall i, j | 0 <= i < j < |s|
      ensures Apart(s, i, j)
    {
      if j < |names| {
        assert Apart(names, i, j);
      } else {
        assert s[i] == names[i];
      }
    }
  }

  lemma DistinctTail(names: seq<string>)
    requires Distinct(names) && |names| > 0
    ensures Distinct(names[1..])
  {
    forall i, j | 0 <= i < j < |names| - 1
      ensures Apart(names[1..], i, j)
    {
      assert Apart(names, i + 1, j + 1);
    }
  }

  /** A name of a distinct list does not occur before its own position. */
  lemma DistinctNotBefore(names: seq<string>, n: nat)
    requires Distinct(names) && n < |names|
    ensures names[n] !in names[..n]
  {
    forall j | 0 <= j < n
      ensures names[..n][j] != names[n]
    {
      assert Apart(names, j, n);
    }
  }

  predicate WellFormed(t: Table)
  {
    && |t.cells| == |t.columns|
    && (forall i :: 0 <= i < |t.cells| ==> |t.cells[i]| == t.rows)
    && Distinct(t.columns)
  }

  /** Position of the first column called `name`. */
  function IndexOf(names: seq<string>, name: string): (i: nat)
    requires name in names
    ensures i < |names| && names[i] == name
    ensures forall j :: 0 <= j < i ==> names[j] != name
  {
    if names[0] == name then 0 else 1 + IndexOf(names[1..], name)
  }

  lemma IndexOfDistinct(names: seq<string>, i: nat)
    requires Distinct(names) && i < |names|
    ensures IndexOf(names, names[i]) == i
  {
    var k := IndexOf(names, names[i]);
    if k != i {
      DistinctAt(names, k, i);
    }
  }

  /** `df[name]`: the cells of the column called `name`. */
  function Column(t: Table, name: string): (col: seq<Value>)
    requires WellFormed(t) && name in t.columns
    ensures |col| == t.rows
  {
    t.cells[IndexOf(t.columns, name)]
  }

  /** A column holding `v` in each of `n` rows. */
  function Fill(v: Value, n: nat): (col: seq<Value>)
    ensures |col| == n
    ensures forall r :: 0 <= r < n ==> col[r] == v
  {
    seq(n, _ => v)
  }

  // ---------------------------------------------------------------------
  // Column assignment

  /** `df[name] = v` with a scalar `v`: an existing column of that name is
      overwritten where it stands, otherwise a new column is appended. */
  function Assigned(t: Table, name: string, v: Value): (r: Table)
    requires WellFormed(t)
    ensures WellFormed(r) && r.rows == t.rows
  {
    if name in t.columns then t.(cells := t.cells[IndexOf(t.columns, name) := Fill(v, t.rows)])
    else
      DistinctSnoc(t.columns, name);
      Table(t.columns + [name], t.cells + [Fill(v, t.rows)], t.rows)
  }

  /** After the assignment every row holds `v` in column `name`; the column
      keeps its position if it existed and comes last otherwise; every other
      column keeps its name, position and cells. */
  lemma AssignedColumns(t: Table, name: string, v: Value)
    requires WellFormed(t)
    ensures var r := Assigned(t, name, v);
      && r.columns == (if name in t.columns then t.columns else t.columns + [name])
      && name in r.columns
      && Column(r, name) == Fill(v, t.rows)
      && (forall c :: c in t.columns && c != name ==>
            IndexOf(r.columns, c) == IndexOf(t.columns, c) && Column(r, c) == Column(t, c))
  {
    var r := Assigned(t, name, v);
    forall c | c in t.columns && c != name
      ensures IndexOf(r.columns, c) == IndexOf(t.columns, c)
    {
      IndexOfDistinct(r.columns, IndexOf(t.columns, c));
    }
    if name !in t.columns {
      IndexOfDistinct(r.columns, |t.columns|);
    }
  }

  /** One column other than the assigned one, as `AssignedColumns` says. */
  lemma AssignedOther(t: Table, name: string, v: Value, c: string)
    requires WellFormed(t)
    ensures c != name ==> (c in Assigned(t, name, v).columns <==> c in t.columns)
    ensures c in t.columns && c != name ==> Column(Assigned(t, name, v), c) == Column(t, c)
  {
    AssignedColumns(t, name, v);
  }

  // ---------------------------------------------------------------------
  // Renaming

  /** A rename table as `df.rename(columns=...)` receives it: old names
      to new names. */
  type Renames = map<string, string>

  /** The new name of column `c` under a rename table: names the table does
      not mention are kept. */
  function RenameName(table: Renames, c: string): string
  {
    if c in table then table[c] else c
  }

  /** `c` is an old name the table renames. */
  predicate IsKey(table: Renames, c: string)
  {
    c in table
  }

  /** `x` is a new name the table gives some column. */
  predicate IsTarget(table: Renames, x: string)
  {
    exists k :: k in table && table[k] == x
  }

  /** A renamed name becomes one of the table's targets; any other name is
      kept. */
  lemma RenameNameOutcome(table: Renames, c: string)
    ensures IsKey(table, c) ==> IsTarget(table, RenameName(table, c))
    ensures !IsKey(table, c) ==> RenameName(table, c) == c
  {
  }

  function RenameColumns(table: Renames, cols: seq<string>): (r: seq<string>)
    ensures |r| == |cols|
    ensures forall i :: 0 <= i < |cols| ==> r[i] == RenameName(table, cols[i])
  {
    seq(|cols|, i requires 0 <= i < |cols| => RenameName(table, cols[i]))
  }

  /** Renaming `cols` by `table` yields no duplicate column name. */
  predicate CollisionFree(table: Renames, cols: seq<string>)
  {
    Distinct(RenameColumns(table, cols))
  }

  /** `df.rename(columns=table)`. */
  function Renamed(t: Table, table: Renames): (r: Table)
    requires WellFormed(t) && CollisionFree(table, t.columns)
    ensures WellFormed(r)
  {
    t.(columns := RenameColumns(table, t.columns))
  }

  /** Renaming changes names only: the row count, the number and order of
      the columns and every cell are kept, and the column first called `c`
      is found under its new name with the same cells. */
  lemma RenamedKeepsCells(t: Table, table: Renames)
    requires WellFormed(t) && CollisionFree(table, t.columns)
    ensures var r := Renamed(t, table);
      && r.rows == t.rows && r.cells == t.cells && |r.columns| == |t.columns|
      && (forall i :: 0 <= i < |t.columns| ==> r.columns[i] == RenameName(table, t.columns[i]))
      && (forall c :: c in t.columns ==>
            && RenameName(table, c) in r.columns
            && IndexOf(r.columns, RenameName(table, c)) == IndexOf(t.columns, c)
            && Column(r, RenameName(table, c)) == Column(t, c))
  {
    var r := Renamed(t, table);
    forall c | c in t.columns
      ensures RenameName(table, c) in r.columns
      ensures IndexOf(r.columns, RenameName(table, c)) == IndexOf(t.columns, c)
    {
      var i := IndexOf(t.columns, c);
      assert r.columns[i] == RenameName(table, c);
      IndexOfDistinct(r.columns, i);
    }
  }

  /** One column under its new name, as `RenamedKeepsCells` says. */
  lemma RenamedAt(t: Table, table: Renames, c: string)
    requires WellFormed(t) && CollisionFree(table, t.columns) && c in t.columns
    ensures RenameName(table, c) in Renamed(t, table).columns
    ensures Column(Renamed(t, table), RenameName(table, c)) == Column(t, c)
  {
    RenamedKeepsCells(t, table);
  }

  /** A name that is neither renamed nor a rename target stays put: it is a
      column afterwards exactly when it was one before, with the same cells. */
  lemma RenamedUntouched(t: Table, table: Renames, x: string)
    requires WellFormed(t) && CollisionFree(table, t.columns)
    requires !IsKey(table, x) && !IsTarget(table, x)
    ensures var r := Renamed(t, table);
      && (x in r.columns <==> x in t.columns)
      && (x in t.columns ==> IndexOf(r.columns, x) == IndexOf(t.columns, x) && Column(r, x) == Column(t, x))
  {
    var r := Renamed(t, table);
    RenamedKeepsCells(t, table);
    if x in r.columns {
      var i := IndexOf(r.columns, x);
      RenameNameOutcome(table, t.columns[i]);
      assert t.columns[i] == x;
    }
    if x in t.columns {
      RenameNameOutcome(table, x);
    }
  }

  /** A name that no column is renamed to is absent afterwards. */
  lemma RenamedAway(t: Table, table: Renames, x: string)
    requires WellFormed(t) && CollisionFree(table, t.columns)
    requires IsKey(table, x) && !IsTarget(table, x)
    ensures x !in Renamed(t, table).columns
  {
    var r := Renamed(t, table);
    forall i | 0 <= i < |r.columns|
      ensures r.columns[i] != x
    {
      RenameNameOutcome(table, t.columns[i]);
    }
  }

  /** Renaming an existing column to a name not yet used never collides. */
  lemma SingleRenameCollisionFree(cols: seq<string>, from: string, to: string)
    requires Distinct(cols) && to !in cols
    ensures CollisionFree(map[from := to], cols)
  {
    var table := map[from := to];
    var r := RenameColumns(table, cols);
    forall i, j | 0 <= i < j < |r|
      ensures r[i] != r[j]
    {
      RenameNameOutcome(table, cols[i]);
      RenameNameOutcome(table, cols[j]);
      DistinctAt(cols, i, j);
    }
  }

  // ---------------------------------------------------------------------
  // Concatenation

  predicate AllWellFormed(bs: seq<Table>)
  {
    forall k :: 0 <= k < |bs| ==> WellFormed(bs[k])
  }

  /** Total row count of a list of frames. */
  function TotalRows(bs: seq<Table>): nat
  {
    if bs == [] then 0 else TotalRows(bs[..|bs| - 1]) + bs[|bs| - 1].rows
  }

  /** `Index.union(other, sort=False)` for column labels: `acc` followed by
      the names of `cols` it lacks, in order of first appearance. */
  function Union(acc: seq<string>, cols: seq<string>): (r: seq<string>)
    ensures |r| >= |acc| && r[..|acc|] == acc
    ensures forall c :: c in r <==> c in acc || c in cols
    ensures Distinct(acc) ==> Distinct(r)
    decreases |cols|
  {
    if cols == [] then acc
    else
      var acc' := if cols[0] in acc then acc else acc + [cols[0]];
      assert Distinct(acc) ==> Distinct(acc') by {
        if Distinct(acc) && cols[0] !in acc { DistinctSnoc(acc, cols[0]); }
      }
      assert forall c :: c in cols <==> c == cols[0] || c in cols[1..];
      Union(acc', cols[1..])
  }

  /** The column labels of `pd.concat(bs)`: every label of every frame,
      once, in order of first appearance. */
  function UnionColumns(bs: seq<Table>): (r: seq<string>)
    ensures Distinct(r)
    ensures forall k, c :: 0 <= k < |bs| && c in bs[k].columns ==> c in r
  {
    if bs == [] then []
    else
      var front := bs[..|bs| - 1];
      assert forall k :: 0 <= k < |front| ==> front[k] == bs[k];
      Union(UnionColumns(front), bs[|bs| - 1].columns)
  }

  /** The concatenation invents no label: each one is a label of some
      frame. */
  lemma {:induction false} UnionColumnsFrom(bs: seq<Table>, c: string)
    requires c in UnionColumns(bs)
    ensures exists k :: 0 <= k < |bs| && c in bs[k].columns
  {
    var front := bs[..|bs| - 1];
    if c in UnionColumns(front) {
      UnionColumnsFrom(front, c);
      var k :| 0 <= k < |front| && c in front[k].columns;
      assert front[k] == bs[k];
    } else {
      assert c in bs[|bs| - 1].columns;
    }
  }

  /** The cells frame `b` contributes to column `c` of the concatenation:
      its own column, or nulls when it has no such column. */
  function ColumnOr(b: Table, c: string): (col: seq<Value>)
    requires WellFormed(b)
    ensures |col| == b.rows
  {
    if c in b.columns then Column(b, c) else Fill(Null, b.rows)
  }

  /** Column `c` of the concatenation: the contributions of the frames, one
      after the other. */
  function Stacked(bs: seq<Table>, c: string): (col: seq<Value>)
    requires AllWellFormed(bs)
    ensures |col| == TotalRows(bs)
  {
    if bs == [] then [] else Stacked(bs[..|bs| - 1], c) + ColumnOr(bs[|bs| - 1], c)
  }

  /** `pd.concat(bs, ignore_index=True)`: the union of the columns, the rows
      of each frame in list order, nulls where a frame lacks a column. */
  function Concatenated(bs: seq<Table>): (r: Table)
    requires AllWellFormed(bs)
    ensures WellFormed(r)
  {
    var cols := UnionColumns(bs);
    Table(cols, seq(|cols|, i requires 0 <= i < |cols| => Stacked(bs, cols[i])), TotalRows(bs))
  }

  /** Row `r` of frame `k` lands at row `TotalRows(bs[..k]) + r` of the
      stacked column. */
  lemma {:induction false} StackedAt(bs: seq<Table>, c: string, k: nat, r: nat)
    requires AllWellFormed(bs) && k < |bs| && r < bs[k].rows
    ensures TotalRows(bs[..k]) + r < TotalRows(bs)
    ensures Stacked(bs, c)[TotalRows(bs[..k]) + r] == ColumnOr(bs[k], c)[r]
    decreases |bs|
  {
    var front := bs[..|bs| - 1];
    if k == |bs| - 1 {
      assert bs[..k] == front;
    } else {
      assert front[..k] == bs[..k];
      assert front[k] == bs[k];
      StackedAt(front, c, k, r);
    }
  }

  /** Concatenation keeps every row of every frame, in order: row `r` of
      frame `k` is row `TotalRows(bs[..k]) + r` of the result, with the
      frame's own cells in the columns it has and nulls in the others. */
  lemma ConcatenatedAt(bs: seq<Table>, c: string, k: nat, r: nat)
    requires AllWellFormed(bs) && k < |bs| && r < bs[k].rows
    requires c in Concatenated(bs).columns
    ensures TotalRows(bs[..k]) + r < Concatenated(bs).rows
    ensures Column(Concatenated(bs), c)[TotalRows(bs[..k]) + r]
         == if c in bs[k].columns then Column(bs[k], c)[r] else Null
  {
    StackedAt(bs, c, k, r);
  }

  /** `pd.concat(bs)` with column `name` set to `v` on every row, or the
      empty frame when there is nothing to concatenate. */
  function Stamped(bs: seq<Table>, name: string, v: Value): (out: Table)
    requires AllWellFormed(bs)
    ensures WellFormed(out)
  {
    if |bs| > 0 then Assigned(Concatenated(bs), name, v) else Empty
  }

  /** The result is the empty frame exactly when there are no frames;
      otherwise it holds every row of every frame and the stamp on each. */
  lemma StampedShape(bs: seq<Table>, name: string, v: Value)
    requires AllWellFormed(bs)
    ensures Stamped(bs, name, v) == Empty <==> |bs| == 0
    ensures |bs| > 0 ==>
      var out := Stamped(bs, name, v);
      && out.rows == TotalRows(bs)
      && name in out.columns
      && Column(out, name) == Fill(v, out.rows)
  {
    if |bs| > 0 {
      AssignedColumns(Concatenated(bs), name, v);
    }
  }

  /** Stamping leaves the rows of every other column where the
      concatenation put them. */
  lemma StampedAt(bs: seq<Table>, name: string, v: Value, c: string, k: nat, r: nat)
    requires AllWellFormed(bs) && k < |bs| && r < bs[k].rows
    requires c in Concatenated(bs).columns && c != name
    ensures c in Stamped(bs, name, v).columns
    ensures TotalRows(bs[..k]) + r < Stamped(bs, name, v).rows
    ensures c in bs[k].columns ==> Column(Stamped(bs, name, v), c)[TotalRows(bs[..k]) + r] == Column(bs[k], c)[r]
    ensures c !in bs[k].columns ==> Column(Stamped(bs, name, v), c)[TotalRows(bs[..k]) + r] == Null
  {
    AssignedOther(Concatenated(bs), name, v, c);
    ConcatenatedAt(bs, c, k, r);
  }

  /** The stamped concatenation keeps every cell of every frame, at the
      frame's offset, in each column the frame has. */
  lemma StampedKeeps(bs: seq<Table>, name: string, v: Value, c: string, k: nat, r: nat)
    requires AllWellFormed(bs) && k < |bs| && r < bs[k].rows
    requires c in bs[k].columns && c != name
    ensures c in Stamped(bs, name, v).columns
    ensures TotalRows(bs[..k]) + r < Stamped(bs, name, v).rows
    ensures Column(Stamped(bs, name, v), c)[TotalRows(bs[..k]) + r] == Column(bs[k], c)[r]
  {
    assert c in Concatenated(bs).columns;
    StampedAt(bs, name, v, c, k, r);
  }

  /** Every row of a concatenation comes from a row of one frame: row `p`
      is row `r` of frame `k`, at that frame's offset. */
  function Locate(bs: seq<Table>, p: nat): (kr: (nat, nat))
    requires p < TotalRows(bs)
    ensures kr.0 < |bs| && kr.1 < bs[kr.0].rows
    ensures p == TotalRows(bs[..kr.0]) + kr.1
    decreases |bs|
  {
    var front := bs[..|bs| - 1];
    if p < TotalRows(front) then
      var kr := Locate(front, p);
      assert front[..kr.0] == bs[..kr.0];
      kr
    else
      assert bs[..|bs| - 1] == front;
      (|bs| - 1, p - TotalRows(front))
  }

  /** Frames that share one column list concatenate to that column list. */
  lemma {:induction false} UniformColumns(bs: seq<Table>, cols: seq<string>)
    requires |bs| > 0 && Distinct(cols)
    requires forall k :: 0 <= k < |bs| ==> bs[k].columns == cols
    ensures UnionColumns(bs) == cols
    decreases |bs|
  {
    var front := bs[..|bs| - 1];
    if |bs| == 1 {
      UnionKeeps([], cols);
    } else {
      UniformColumns(front, cols);
      UnionKeeps(cols, cols);
    }
  }

  /** Union with labels that are all present already adds nothing. */
  lemma {:induction false} UnionKeeps(acc: seq<string>, cols: seq<string>)
    requires Distinct(cols)
    requires acc == [] || forall c :: c in cols ==> c in acc
    ensures Union(acc, cols) == if acc == [] then cols else acc
    decreases |cols|
  {
    if cols != [] {
      if acc == [] {
        assert [] + [cols[0]] == cols[..1];
        UnionOntoPrefix(cols, 1);
      } else {
        assert cols[0] in acc;
        DistinctTail(cols);
        UnionKeeps(acc, cols[1..]);
      }
    }
  }

  /** Union of a distinct list onto its own first `n` names is the list. */
  lemma {:induction false} UnionOntoPrefix(cols: seq<string>, n: nat)
    requires Distinct(cols) && n <= |cols|
    ensures Union(cols[..n], cols[n..]) == cols
    decreases |cols| - n
  {
    if n < |cols| {
      var rest := cols[n..];
      assert rest[0] == cols[n] && rest[1..] == cols[n + 1..];
      DistinctNotBefore(cols, n);
      assert cols[..n] + [cols[n]] == cols[..n + 1];
      assert Union(cols[..n], rest) == Union(cols[..n + 1], cols[n + 1..]);
      UnionOntoPrefix(cols, n + 1);
    } else {
      assert cols[..n] == cols;
    }
  }

  // ---------------------------------------------------------------------
  // A frame updated in place

  /** A pandas frame that the ingestion step changes in place. */
  class Frame {
    var columns: seq<string>
    var cells: seq<seq<Value>>
    var rows: nat

    /** The frame's current contents as a value. */
    function Snapshot(): Table
      reads this
    {
      Table(columns, cells, rows)
    }

    ghost predicate Valid()
      reads this
    {
      WellFormed(Snapshot())
    }

    /** A frame holding `t`, as `pd.read_parquet` returns it. */
    constructor (t: Table)
      requires WellFormed(t)
      ensures Valid() && Snapshot() == t
    {
      columns, cells, rows := t.columns, t.cells, t.rows;
    }

    /** `df[name] = v`. */
    method Assign(name: string, v: Value)
      requires Valid()
      modifies this
      ensures Valid() && Snapshot() == Assigned(old(Snapshot()), name, v)
    {
      if name in columns {
        var i := IndexOf(columns, name);
        cells := cells[i := Fill(v, rows)];
      } else {
        DistinctSnoc(columns, name);
        columns := columns + [name];
        cells := cells + [Fill(v, rows)];
      }
    }

    /** `df.rename(columns=table, inplace=True)`. */
    method Rename(table: Renames)
      requires Valid() && CollisionFree(table, columns)
      modifies this
      ensures Valid() && Snapshot() == Renamed(old(Snapshot()), table)
    {
      columns := RenameColumns(table, columns);
    }
  }
}
