/** Sorting rows by several columns with one stable sort per column (vstutils/tools.py). */
module MultiKeySort {
  import opened Common

  /** A row of data; the values of a column are compared as integers. */
  type Row = map<string, int>

  /** The columns as they are given: a leading '-' sorts downwards. */
  type Column = string

  predicate IsReverse(column: Column)
  {
    column != "" && column[0] == '-'
  }

  function NameOf(column: Column): string
  {
    if IsReverse(column) then column[1..] else column
  }

  /** Reading a column a row does not have is a KeyError. */
  predicate AllHave(rows: seq<Row>, column: Column)
  {
    forall r :: r in rows ==> NameOf(column) in r
  }

  predicate Complete(rows: seq<Row>, columns: seq<Column>)
  {
    forall c :: c in columns ==> AllHave(rows, c)
  }

  /** The sort key; it is only used of rows that have the column. */
  function KeyOf(column: Column, row: Row): int
  {
    if NameOf(column) in row then row[NameOf(column)] else 0
  }

  /** a may stand before b by this column alone. */
  predicate ColumnLe(column: Column, a: Row, b: Row)
  {
    if IsReverse(column) then KeyOf(column, a) >= KeyOf(column, b) else KeyOf(column, a) <= KeyOf(column, b)
  }

  /** The first column decides, and a tie goes to the next. */
  predicate LexLe(columns: seq<Column>, a: Row, b: Row)
  {
    columns == [] || (ColumnLe(columns[0], a, b) && (ColumnLe(columns[0], b, a) ==> LexLe(columns[1..], a, b)))
  }

  predicate Tied(columns: seq<Column>, a: Row, b: Row)
  {
    forall c :: c in columns ==> KeyOf(c, a) == KeyOf(c, b)
  }

  ghost predicate Sorted(columns: seq<Column>, rows: seq<Row>)
  {
    forall i, j :: 0 <= i < j < |rows| ==> LexLe(columns, rows[i], rows[j])
  }

  /** The rows that satisfy p, in order. */
  function Keep(p: Row -> bool, rows: seq<Row>): seq<Row>
  {
    if rows == [] then [] else (if p(rows[0]) then [rows[0]] else []) + Keep(p, rows[1..])
  }

  /** The rows tied with r, in order. */
  function TiedWith(columns: seq<Column>, r: Row, rows: seq<Row>): seq<Row>
  {
    Keep((x: Row) => Tied(columns, r, x), rows)
  }

  /** Rearranged, and rows that tie keep their order. */
  ghost predicate StablyRearranged(columns: seq<Column>, rows: seq<Row>, result: seq<Row>)
  {
    multiset(rows) == multiset(result) && forall r :: TiedWith(columns, r, result) == TiedWith(columns, r, rows)
  }

  // ---- list.sort ----

  /** list.sort(key=..., reverse=...) with the key of one column, stable also when it
      reverses.  SortAllIsTheLexicographicSort, with that one column, shows that this is the
      only function that sorts and is stable. */
  function Sort(column: Column, rows: seq<Row>): (r: seq<Row>)
    ensures multiset(r) == multiset(rows)
  {
    if rows == [] then [] else
    assert rows == [rows[0]] + rows[1..];
    Insert(column, rows[0], Sort(column, rows[1..]))
  }

  function Insert(column: Column, row: Row, rows: seq<Row>): (r: seq<Row>)
    ensures multiset(r) == multiset(rows) + multiset{row}
  {
    if rows == [] then [row] else
    if ColumnLe(column, row, rows[0]) then [row] + rows else
    assert rows == [rows[0]] + rows[1..];
    [rows[0]] + Insert(column, row, rows[1..])
  }

  /** One stable sort per column, the last column first. */
  function SortAll(columns: seq<Column>, rows: seq<Row>): (r: seq<Row>)
    ensures multiset(r) == multiset(rows)
  {
    if columns == [] then rows else Sort(columns[0], SortAll(columns[1..], rows))
  }

  ghost predicate AllAfter(columns: seq<Column>, row: Row, rows: seq<Row>)
  {
    forall r :: r in multiset(rows) ==> LexLe(columns, row, r)
  }

  lemma SortedCons(columns: seq<Column>, row: Row, rows: seq<Row>)
    ensures Sorted(columns, [row] + rows) <==> Sorted(columns, rows) && AllAfter(columns, row, rows)
  {
    var all := [row] + rows;
    if Sorted(columns, all) {
      forall i, j | 0 <= i < j < |rows| ensures LexLe(columns, rows[i], rows[j]) {
        assert rows[i] == all[i + 1] && rows[j] == all[j + 1];
      }
      forall r | r in multiset(rows) ensures LexLe(columns, row, r) {
        var k :| 0 <= k < |rows| && rows[k] == r;
        assert all[0] == row && all[k + 1] == r;
      }
    }
    if Sorted(columns, rows) && AllAfter(columns, row, rows) {
      forall i, j | 0 <= i < j < |all| ensures LexLe(columns, all[i], all[j]) {
        assert all[j] == rows[j - 1];
        assert rows[j - 1] in multiset(rows);
      }
    }
  }

  lemma {:induction false} InsertKeepsSorted(columns: seq<Column>, row: Row, rows: seq<Row>)
    requires columns != [] && Sorted(columns, rows) && AllAfter(columns[1..], row, rows)
    ensures Sorted(columns, Insert(columns[0], row, rows))
    decreases |rows|
  {
    if rows == [] {
    } else {
      assert rows == [rows[0]] + rows[1..];
      SortedCons(columns, rows[0], rows[1..]);
      if ColumnLe(columns[0], row, rows[0]) {
        SortedCons(columns, row, rows);
      } else {
        InsertKeepsSorted(columns, row, rows[1..]);
        SortedCons(columns, rows[0], Insert(columns[0], row, rows[1..]));
      }
    }
  }

  /** Sorting by one more column what is sorted by the others. */
  lemma {:induction false} SortKeepsSorted(columns: seq<Column>, rows: seq<Row>)
    requires columns != [] && Sorted(columns[1..], rows)
    ensures Sorted(columns, Sort(columns[0], rows))
    decreases |rows|
  {
    if rows == [] {
    } else {
      assert rows == [rows[0]] + rows[1..];
      SortedCons(columns[1..], rows[0], rows[1..]);
      SortKeepsSorted(columns, rows[1..]);
      InsertKeepsSorted(columns, rows[0], Sort(columns[0], rows[1..]));
    }
  }

  lemma KeepCons(p: Row -> bool, row: Row, rows: seq<Row>)
    ensures Keep(p, [row] + rows) == (if p(row) then [row] else []) + Keep(p, rows)
  {
    assert ([row] + rows)[1..] == rows;
  }

  /** p never holds of two rows that the column tells apart. */
  ghost predicate WithinTies(column: Column, p: Row -> bool)
  {
    forall a, b :: !ColumnLe(column, a, b) ==> !(p(a) && p(b))
  }

  lemma SwapEmpty(a: seq<Row>, b: seq<Row>, c: seq<Row>)
    requires a == [] || b == []
    ensures a + (b + c) == b + (a + c)
  {
  }

  lemma {:induction false} InsertKeepsTies(column: Column, p: Row -> bool, row: Row, rows: seq<Row>)
    requires WithinTies(column, p)
    ensures Keep(p, Insert(column, row, rows)) == Keep(p, [row] + rows)
    decreases |rows|
  {
    if rows != [] && !ColumnLe(column, row, rows[0]) {
      InsertKeepsTies(column, p, row, rows[1..]);
      PassOver(column, p, row, rows[0], rows[1..], Insert(column, row, rows[1..]));
      assert rows == [rows[0]] + rows[1..];
    }
  }

  lemma PassOver(column: Column, p: Row -> bool, row: Row, first: Row, rest: seq<Row>, inserted: seq<Row>)
    requires WithinTies(column, p) && !ColumnLe(column, row, first)
    requires Keep(p, inserted) == Keep(p, [row] + rest)
    ensures Keep(p, [first] + inserted) == Keep(p, [row] + ([first] + rest))
  {
    var a, b := if p(row) then [row] else [], if p(first) then [first] else [];
    KeepCons(p, first, inserted);
    KeepCons(p, row, rest);
    KeepCons(p, first, rest);
    KeepCons(p, row, [first] + rest);
    assert !(p(row) && p(first));
    SwapEmpty(a, b, Keep(p, rest));
  }

  lemma {:induction false} SortKeepsTies(column: Column, p: Row -> bool, rows: seq<Row>)
    requires WithinTies(column, p)
    ensures Keep(p, Sort(column, rows)) == Keep(p, rows)
    decreases |rows|
  {
    if rows != [] {
      SortKeepsTies(column, p, rows[1..]);
      InsertKeepsTies(column, p, rows[0], Sort(column, rows[1..]));
      KeepCons(p, rows[0], Sort(column, rows[1..]));
    }
  }

  lemma {:induction false} SortAllIsSorted(columns: seq<Column>, rows: seq<Row>)
    ensures Sorted(columns, SortAll(columns, rows))
    decreases |columns|
  {
    if columns != [] {
      SortAllIsSorted(columns[1..], rows);
      SortKeepsSorted(columns, SortAll(columns[1..], rows));
    }
  }

  lemma {:induction false} SortAllKeepsTies(columns: seq<Column>, p: Row -> bool, rows: seq<Row>)
    requires forall c :: c in columns ==> WithinTies(c, p)
    ensures Keep(p, SortAll(columns, rows)) == Keep(p, rows)
    decreases |columns|
  {
    if columns != [] {
      SortAllKeepsTies(columns[1..], p, rows);
      SortKeepsTies(columns[0], p, SortAll(columns[1..], rows));
    }
  }

  lemma TiesAreWithinEveryColumn(columns: seq<Column>, r: Row)
    ensures forall c :: c in columns ==> WithinTies(c, (x: Row) => Tied(columns, r, x))
  {
  }

  lemma {:induction false} MutualIsTied(columns: seq<Column>, a: Row, b: Row)
    requires LexLe(columns, a, b) && LexLe(columns, b, a)
    ensures Tied(columns, a, b)
    decreases |columns|
  {
    if columns != [] {
      MutualIsTied(columns[1..], a, b);
      forall c | c in columns ensures KeyOf(c, a) == KeyOf(c, b) {
        assert c == columns[0] || c in columns[1..];
      }
    }
  }

  /** Rows sorted by the columns, with ties in the same order, are the same rows. */
  lemma {:induction false} SortedStableIsUnique(columns: seq<Column>, a: seq<Row>, b: seq<Row>)
    requires Sorted(columns, a) && Sorted(columns, b)
    requires StablyRearranged(columns, a, b)
    ensures a == b
    decreases |a|
  {
    assert |multiset(a)| == |a| && |multiset(b)| == |b|;
    if a != [] {
      assert a == [a[0]] + a[1..] && b == [b[0]] + b[1..];
      SortedCons(columns, a[0], a[1..]);
      SortedCons(columns, b[0], b[1..]);
      HeadsAgree(columns, a, b);
      assert multiset(a[1..]) == multiset(a) - multiset{a[0]};
      forall r ensures TiedWith(columns, r, b[1..]) == TiedWith(columns, r, a[1..]) {
        assert TiedWith(columns, r, a) == TiedWith(columns, r, b);
        TailsAgree((x: Row) => Tied(columns, r, x), a, b);
      }
      SortedStableIsUnique(columns, a[1..], b[1..]);
    }
  }

  lemma TailsAgree(p: Row -> bool, a: seq<Row>, b: seq<Row>)
    requires a != [] && b != [] && a[0] == b[0]
    requires Keep(p, a) == Keep(p, b)
    ensures Keep(p, a[1..]) == Keep(p, b[1..])
  {
    var s, t := Keep(p, a), Keep(p, b);
    if p(a[0]) {
      assert s[1..] == Keep(p, a[1..]) && t[1..] == Keep(p, b[1..]);
    } else {
      assert s == Keep(p, a[1..]) && t == Keep(p, b[1..]);
    }
  }

  lemma HeadsAgree(columns: seq<Column>, a: seq<Row>, b: seq<Row>)
    requires Sorted(columns, a) && Sorted(columns, b)
    requires StablyRearranged(columns, a, b) && a != [] && b != []
    ensures a[0] == b[0]
  {
    var x, y := a[0], b[0];
    assert x in multiset(b) && y in multiset(a);
    var i :| 0 <= i < |a| && a[i] == y;
    var j :| 0 <= j < |b| && b[j] == x;
    if i > 0 && j > 0 {
      assert LexLe(columns, a[0], a[i]) && LexLe(columns, b[0], b[j]);
      MutualIsTied(columns, x, y);
      assert TiedWith(columns, x, a) == TiedWith(columns, x, b);
      assert TiedWith(columns, x, a)[0] == x;
      assert TiedWith(columns, x, b)[0] == y;
    }
  }

  /** One stable sort per column, done in reverse order of the columns, is the sort by all of
      them: the only rearrangement that is sorted by the lexicographic order of the columns,
      each in its direction, and keeps the order of rows that tie in all of them. */
  lemma SortAllIsTheLexicographicSort(columns: seq<Column>, rows: seq<Row>, result: seq<Row>)
    ensures result == SortAll(columns, rows) <==> Sorted(columns, result) && StablyRearranged(columns, rows, result)
  {
    var sorted := SortAll(columns, rows);
    SortAllIsSorted(columns, rows);
    forall r ensures TiedWith(columns, r, sorted) == TiedWith(columns, r, rows) {
      TiesAreWithinEveryColumn(columns, r);
      SortAllKeepsTies(columns, (x: Row) => Tied(columns, r, x), rows);
    }
    if Sorted(columns, result) && StablyRearranged(columns, rows, result) {
      forall r ensures TiedWith(columns, r, result) == TiedWith(columns, r, sorted) {
        assert TiedWith(columns, r, result) == TiedWith(columns, r, rows);
      }
      SortedStableIsUnique(columns, sorted, result);
    }
  }

  /** By one column the values ascend, and with a leading '-' they descend. */
  lemma OneColumnSorts(name: string, rows: seq<Row>)
    requires (name == "" || name[0] != '-') && forall r :: r in rows ==> name in r
    ensures var up := SortAll([name], rows);
            && |up| == |rows| && (forall i :: 0 <= i < |up| ==> name in up[i])
            && forall i, j :: 0 <= i < j < |up| ==> up[i][name] <= up[j][name]
    ensures var down := SortAll(["-" + name], rows);
            && |down| == |rows| && (forall i :: 0 <= i < |down| ==> name in down[i])
            && forall i, j :: 0 <= i < j < |down| ==> down[i][name] >= down[j][name]
  {
    assert ("-" + name)[1..] == name;
    SortedByOne(name, name, rows);
    SortedByOne("-" + name, name, rows);
  }

  lemma SortedByOne(column: Column, name: string, rows: seq<Row>)
    requires NameOf(column) == name && forall r :: r in rows ==> name in r
    ensures var sorted := SortAll([column], rows);
            && |sorted| == |rows| && (forall i :: 0 <= i < |sorted| ==> name in sorted[i])
            && forall i, j :: 0 <= i < j < |sorted| ==> ColumnLe(column, sorted[i], sorted[j])
  {
    var sorted := SortAll([column], rows);
    SortAllIsSorted([column], rows);
    assert |multiset(sorted)| == |sorted| && |multiset(rows)| == |rows|;
    forall i | 0 <= i < |sorted| ensures name in sorted[i] {
      assert sorted[i] in multiset(rows);
    }
    forall i, j | 0 <= i < j < |sorted| ensures ColumnLe(column, sorted[i], sorted[j]) {
      assert LexLe([column], sorted[i], sorted[j]);
    }
  }

  /** By two columns the first decides, and among equal values the second. */
  lemma TwoColumnsSort(first: string, second: string, rows: seq<Row>)
    requires (first == "" || first[0] != '-') && (second == "" || second[0] != '-')
    requires forall r :: r in rows ==> first in r && second in r
    ensures var sorted := SortAll([first, second], rows);
            && |sorted| == |rows| && (forall i :: 0 <= i < |sorted| ==> first in sorted[i] && second in sorted[i])
            && forall i, j :: 0 <= i < j < |sorted| ==>
                 || sorted[i][first] < sorted[j][first]
                 || (sorted[i][first] == sorted[j][first] && sorted[i][second] <= sorted[j][second])
  {
    var sorted := SortAll([first, second], rows);
    SortAllIsSorted([first, second], rows);
    assert |multiset(sorted)| == |sorted| && |multiset(rows)| == |rows|;
    forall i | 0 <= i < |sorted| ensures first in sorted[i] && second in sorted[i] {
      assert sorted[i] in multiset(rows);
    }
    forall i, j | 0 <= i < j < |sorted|
      ensures || sorted[i][first] < sorted[j][first]
              || (sorted[i][first] == sorted[j][first] && sorted[i][second] <= sorted[j][second])
    {
      assert LexLe([first, second], sorted[i], sorted[j]);
      assert [first, second][1..] == [second];
      assert LexLe([second], sorted[i], sorted[j]) ==> ColumnLe(second, sorted[i], sorted[j]);
      assert NameOf(first) == first && NameOf(second) == second;
    }
  }

  // ---- multikeysort ----

  function Reversed<T>(s: seq<T>): (r: seq<T>)
    ensures |r| == |s|
    ensures forall i :: 0 <= i < |s| ==> r[i] == s[|s| - 1 - i]
  {
    if s == [] then [] else Reversed(s[1..]) + [s[0]]
  }

  /** A Python list. */
  class PyList<T> {
    var elems: seq<T>

    constructor (elems: seq<T>)
      ensures this.elems == elems
    {
      this.elems := elems;
    }

    method ReverseInPlace()
      modifies this
      ensures elems == Reversed(old(elems))
    {
      ghost var given := elems;
      var n := |elems|;
      for i := 0 to n / 2
        invariant |elems| == n
        invariant forall k :: 0 <= k < i ==> elems[k] == given[n - 1 - k]
        invariant forall k :: i <= k < n - i ==> elems[k] == given[k]
        invariant forall k :: n - i <= k < n ==> elems[k] == given[n - 1 - k]
      {
        var left, right := elems[i], elems[n - 1 - i];
        elems := elems[i := right][n - 1 - i := left];
      }
    }
  }

  /** Sorts the list in place and answers it; the list of columns is left reversed.  A row
      without one of the columns is a KeyError. */
  method SortByColumns(items: PyList<Row>, columns: PyList<Column>, reverse: bool)
    returns (r: Result<PyList<Row>, string>)
    modifies items, columns
    ensures columns.elems == Reversed(old(columns.elems))
    ensures r.Ok? <==> Complete(old(items.elems), old(columns.elems))
    ensures r.Ok? ==> r.value == items
    ensures r.Ok? ==> var sorted := SortAll(old(columns.elems), old(items.elems));
                      items.elems == if reverse then Reversed(sorted) else sorted
    ensures multiset(items.elems) == multiset(old(items.elems))
  {
    ghost var given, rows := columns.elems, items.elems;
    columns.ReverseInPlace();
    ReversedTwice(given);
    ReversedHasSame(given);
    var sorted := SortInOrder(items, columns.elems);
    if !sorted {
      return Err("KeyError");
    }
    if reverse {
      ReversedSameRows(items.elems);
      items.ReverseInPlace();
    }
    r := Ok(items);
  }

  /** There is a KeyError when a row lacks a column, named without its '-'; with no rows, or no
      columns, there is none. */
  lemma CompleteIff(rows: seq<Row>, name: string)
    requires name == "" || name[0] != '-'
    ensures Complete(rows, [name]) <==> forall r :: r in rows ==> name in r
    ensures Complete(rows, ["-" + name]) <==> forall r :: r in rows ==> name in r
    ensures Complete(rows, [])
    ensures forall columns: seq<Column>, more: seq<Column> ::
              Complete(rows, columns + more) <==> Complete(rows, columns) && Complete(rows, more)
  {
    assert ("-" + name)[1..] == name;
    assert name in [name] && "-" + name in ["-" + name];
    forall columns: seq<Column>, more: seq<Column>
      ensures Complete(rows, columns + more) <==> Complete(rows, columns) && Complete(rows, more)
    {
      assert forall c :: c in columns + more <==> c in columns || c in more;
    }
  }

  /** The loop: one sort in place for each column, until a row lacks one. */
  method SortInOrder(items: PyList<Row>, order: seq<Column>) returns (done: bool)
    modifies items
    ensures done <==> Complete(old(items.elems), order)
    ensures done ==> items.elems == SortAll(Reversed(order), old(items.elems))
    ensures multiset(items.elems) == multiset(old(items.elems))
  {
    ghost var rows := items.elems;
    for i := 0 to |order|
      invariant items.elems == SortAll(Reversed(order[..i]), rows)
      invariant Complete(rows, order[..i])
    {
      OneMoreColumn(order, i, rows);
      if !AllHave(items.elems, order[i]) {
        return false;
      }
      items.elems := Sort(order[i], items.elems);
    }
    assert order[..|order|] == order;
    done := true;
  }

  /** What sorting by column i as well adds to sorting by those before it. */
  lemma OneMoreColumn(order: seq<Column>, i: nat, rows: seq<Row>)
    requires i < |order|
    ensures var sorted := SortAll(Reversed(order[..i]), rows);
            && SortAll(Reversed(order[..i + 1]), rows) == Sort(order[i], sorted)
            && (Complete(rows, order[..i]) && AllHave(sorted, order[i]) <==> Complete(rows, order[..i + 1]))
            && (Complete(rows, order) ==> AllHave(sorted, order[i]))
  {
    SameRows(SortAll(Reversed(order[..i]), rows), rows, order[i]);
    assert order[..i + 1] == order[..i] + [order[i]];
    ReversedMore(order[..i], order[i]);
  }

  lemma ReversedMore<T>(s: seq<T>, x: T)
    ensures Reversed(s + [x]) == [x] + Reversed(s)
  {
  }

  lemma ReversedTwice<T>(s: seq<T>)
    ensures Reversed(Reversed(s)) == s
  {
  }

  lemma ReversedHasSame<T>(s: seq<T>)
    ensures forall x :: x in Reversed(s) <==> x in s
  {
    forall x | x in s ensures x in Reversed(s) {
      var i :| 0 <= i < |s| && s[i] == x;
      assert Reversed(s)[|s| - 1 - i] == x;
    }
  }

  lemma SameRows(a: seq<Row>, b: seq<Row>, column: Column)
    requires multiset(a) == multiset(b)
    ensures AllHave(a, column) <==> AllHave(b, column)
  {
    forall r ensures r in a <==> r in b { assert r in multiset(a) <==> r in multiset(b); }
  }

  lemma {:induction false} ReversedSameRows<T>(s: seq<T>)
    ensures multiset(Reversed(s)) == multiset(s)
    decreases |s|
  {
    if s != [] {
      ReversedSameRows(s[1..]);
      assert s == [s[0]] + s[1..];
    }
  }
}
