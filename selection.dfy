/**
 * Keeping the selection of the directory list across a refresh
 * (`RememberSelected` and `RecallSelected` in main.cpp). The widget reports
 * rows: the highlighted row (0 when none is) and the selected rows in
 * ascending order. Remembering turns them into names; recalling turns names
 * back into rows of the new listing.
 *
 * `RememberSelected` indexes `current_dir_list_` with the widget's rows. When
 * the list is empty, for instance while the `..` placeholder is shown after a
 * failed listing, the row 0 it is given is out of range.
 * `RememberedAsWritten` keeps that; `Remembered` skips rows that are out of
 * range.
 */
module Selection {
  import opened Wrappers
  import opened Listing

  /** Rows strictly ascending. */
  predicate Ascending(rows: seq<int>)
  {
    forall i, j :: 0 <= i < j < |rows| ==> rows[i] < rows[j]
  }

  /** Rows that are positions of `list`. */
  predicate InRange(list: seq<DirEntry>, rows: seq<int>)
  {
    forall k :: 0 <= k < |rows| ==> 0 <= rows[k] < |list|
  }

  predicate DistinctNames(list: seq<DirEntry>)
  {
    forall i, j :: 0 <= i < j < |list| ==> list[i].name != list[j].name
  }

  /** The names of the selected rows that exist. */
  function SelectedNames(list: seq<DirEntry>, rows: seq<int>): (names: set<string>)
    ensures forall k :: 0 <= k < |rows| && 0 <= rows[k] < |list| ==> list[rows[k]].name in names
    ensures forall n :: n in names ==> exists k :: 0 <= k < |rows| && 0 <= rows[k] < |list| && list[rows[k]].name == n
  {
    set k | 0 <= k < |rows| && 0 <= rows[k] < |list| :: list[rows[k]].name
  }

  /** What `RememberSelected` stores, rows out of range skipped: the highlighted name (`""` if none) and the selected names. */
  function Remembered(list: seq<DirEntry>, highlighted: int, rows: seq<int>): (r: (string, set<string>))
    ensures 0 <= highlighted < |list| ==> r.0 == list[highlighted].name
    ensures !(0 <= highlighted < |list|) ==> r.0 == ""
    ensures r.1 == SelectedNames(list, rows)
  {
    (if 0 <= highlighted < |list| then list[highlighted].name else "", SelectedNames(list, rows))
  }

  /** `RememberSelected` as written: undefined (`None`) when a row is not a position of the list. */
  function RememberedAsWritten(list: seq<DirEntry>, highlighted: int, rows: seq<int>): (r: Option<(string, set<string>)>)
    ensures r.Some? <==> 0 <= highlighted < |list| && InRange(list, rows)
    ensures r.Some? ==> r.value == Remembered(list, highlighted, rows)
  {
    if 0 <= highlighted < |list| && InRange(list, rows) then
      var names := set k | 0 <= k < |rows| :: list[rows[k]].name;
      assert names == SelectedNames(list, rows);
      Some((list[highlighted].name, names))
    else None
  }

  /** With the list empty, the row 0 that `GetHighlighted` reports when nothing is focused is out of range. */
  lemma RememberEmptyListUndefined(rows: seq<int>)
    ensures RememberedAsWritten([], 0, rows) == None
  {
  }

  /** The rows `RecallSelected` selects: those whose name was stored, ascending. */
  function SelectedRows(list: seq<DirEntry>, names: set<string>): (r: seq<int>)
    ensures Ascending(r) && InRange(list, r)
    ensures forall k :: 0 <= k < |r| ==> list[r[k]].name in names
    ensures forall i :: 0 <= i < |list| && list[i].name in names ==> i in r
    decreases |list|
  {
    if list == [] then []
    else
      var last := |list| - 1;
      var front := SelectedRows(list[..last], names);
      assert forall k :: 0 <= k < |front| ==> list[front[k]] == list[..last][front[k]];
      front + (if list[last].name in names then [last] else [])
  }

  /** The row `RecallSelected` highlights: the last one with the stored name, or 0. */
  function HighlightRow(list: seq<DirEntry>, name: string): (h: int)
    ensures 0 <= h && (h < |list| || h == 0)
    ensures (exists i :: 0 <= i < |list| && list[i].name == name) ==>
      h < |list| && list[h].name == name && forall i :: h < i < |list| ==> list[i].name != name
    ensures (forall i :: 0 <= i < |list| ==> list[i].name != name) ==> h == 0
    decreases |list|
  {
    if list == [] then 0
    else if list[|list| - 1].name == name then |list| - 1
    else
      var front := list[..|list| - 1];
      assert forall i :: 0 <= i < |front| ==> front[i] == list[i];
      HighlightRow(front, name)
  }

  /** Extending the list by one row adds that row when its name is stored. */
  lemma SelectedRowsStep(list: seq<DirEntry>, names: set<string>, i: int)
    requires 0 <= i < |list|
    ensures list[i].name in names ==> SelectedRows(list[..i + 1], names) == SelectedRows(list[..i], names) + [i]
    ensures list[i].name !in names ==> SelectedRows(list[..i + 1], names) == SelectedRows(list[..i], names)
  {
    var upto := list[..i + 1];
    assert upto[..i] == list[..i] && upto[i] == list[i];
  }

  /** Extending the list by one row moves the highlight there when it carries the name. */
  lemma HighlightRowStep(list: seq<DirEntry>, name: string, i: int)
    requires 0 <= i < |list|
    ensures HighlightRow(list[..i + 1], name) == if list[i].name == name then i else HighlightRow(list[..i], name)
  {
    var upto := list[..i + 1];
    assert upto[..i] == list[..i] && upto[i] == list[i];
  }

  /** The loop of `RecallSelected` over the new listing. */
  method RecallRows(list: seq<DirEntry>, name: string, names: set<string>) returns (highlight: int, selection: seq<int>)
    ensures highlight == HighlightRow(list, name)
    ensures selection == SelectedRows(list, names)
  {
    highlight := 0;
    selection := [];
    var i := 0;
    while i < |list|
      invariant 0 <= i <= |list|
      invariant highlight == HighlightRow(list[..i], name)
      invariant selection == SelectedRows(list[..i], names)
    {
      SelectedRowsStep(list, names, i);
      HighlightRowStep(list, name, i);
      if list[i].name in names {
        selection := selection + [i];
      }
      if list[i].name == name {
        highlight := i;
      }
      i := i + 1;
    }
    assert list[..i] == list;
  }

  /** Two ascending row lists with the same rows are equal. */
  lemma {:induction false} AscendingUnique(a: seq<int>, b: seq<int>)
    requires Ascending(a) && Ascending(b)
    requires forall x :: x in a <==> x in b
    ensures a == b
    decreases |a|
  {
    if a != [] {
      assert a[0] in a;
    }
    if b != [] {
      assert b[0] in b;
    }
    if a != [] && b != [] {
      assert a[0] == b[0] by {
        assert a[0] in b && b[0] in a;
      }
      forall x
        ensures x in a[1..] <==> x in b[1..]
      {
        if x in a[1..] {
          assert x > a[0];
          assert x in b;
        }
        if x in b[1..] {
          assert x > b[0];
          assert x in a;
        }
      }
      AscendingUnique(a[1..], b[1..]);
      assert a == [a[0]] + a[1..] && b == [b[0]] + b[1..];
    }
  }

  /**
   * When names are unique, recalling what was remembered on the same list
   * restores the highlighted row and the selection.
   */
  lemma RememberRecall(list: seq<DirEntry>, highlighted: int, rows: seq<int>)
    requires DistinctNames(list)
    requires 0 <= highlighted < |list| && Ascending(rows) && InRange(list, rows)
    ensures HighlightRow(list, Remembered(list, highlighted, rows).0) == highlighted
    ensures SelectedRows(list, Remembered(list, highlighted, rows).1) == rows
  {
    var kept := Remembered(list, highlighted, rows);
    HighlightOfDistinct(list, highlighted);
    RecalledRows(list, rows);
    AscendingUnique(SelectedRows(list, kept.1), rows);
  }

  /** With unique names, the row highlighted for a row's name is that row. */
  lemma HighlightOfDistinct(list: seq<DirEntry>, row: int)
    requires DistinctNames(list) && 0 <= row < |list|
    ensures HighlightRow(list, list[row].name) == row
  {
    var name := list[row].name;
    var h := HighlightRow(list, name);
    assert 0 <= row < |list| && list[row].name == name;
    assert h < |list| && list[h].name == name;
  }

  /** With unique names, the rows recalled from the names of some rows are those rows. */
  lemma RecalledRows(list: seq<DirEntry>, rows: seq<int>)
    requires DistinctNames(list) && InRange(list, rows)
    ensures forall x :: x in SelectedRows(list, SelectedNames(list, rows)) <==> x in rows
  {
    var names := SelectedNames(list, rows);
    var r := SelectedRows(list, names);
    forall x
      ensures x in r <==> x in rows
    {
      if x in rows {
        var k :| 0 <= k < |rows| && rows[k] == x;
        assert list[x].name in names;
      }
      if x in r {
        var k :| 0 <= k < |r| && r[k] == x;
        var j :| 0 <= j < |rows| && 0 <= rows[j] < |list| && list[rows[j]].name == list[x].name;
        assert rows[j] == x;
      }
    }
  }

  /** One more selected row adds its name when it is a position of the list. */
  lemma SelectedNamesStep(list: seq<DirEntry>, rows: seq<int>, i: int)
    requires 0 <= i < |rows|
    ensures SelectedNames(list, rows[..i + 1])
         == SelectedNames(list, rows[..i]) + (if 0 <= rows[i] < |list| then {list[rows[i]].name} else {})
  {
    var front := rows[..i];
    var longer := rows[..i + 1];
    assert forall k :: 0 <= k < i ==> longer[k] == front[k];
    assert longer[i] == rows[i];
  }

  /**
   * Re-sorting keeps the selection: in a reordering of the list, the rows
   * recalled from the remembered names carry exactly those names, and the
   * recalled highlight carries the remembered highlighted name.
   */
  lemma RecallAfterReorder(list: seq<DirEntry>, reordered: seq<DirEntry>, highlighted: int, rows: seq<int>)
    requires multiset(reordered) == multiset(list)
    requires 0 <= highlighted < |list|
    ensures var kept := Remembered(list, highlighted, rows);
      && SelectedNames(reordered, SelectedRows(reordered, kept.1)) == kept.1
      && reordered[HighlightRow(reordered, kept.0)].name == kept.0
  {
    var kept := Remembered(list, highlighted, rows);
    var r := SelectedRows(reordered, kept.1);
    forall n | n in kept.1
      ensures n in SelectedNames(reordered, r)
    {
      var k :| 0 <= k < |rows| && 0 <= rows[k] < |list| && list[rows[k]].name == n;
      assert list[rows[k]] in multiset(reordered);
      var i :| 0 <= i < |reordered| && reordered[i] == list[rows[k]];
      assert i in r;
      var j :| 0 <= j < |r| && r[j] == i;
    }
    assert list[highlighted] in multiset(reordered);
    var i :| 0 <= i < |reordered| && reordered[i] == list[highlighted];
  }
}
