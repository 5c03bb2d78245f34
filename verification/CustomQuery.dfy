/** Querying models that are lists of dictionaries (vstutils/models/custom_model.py). */
module CustomQuery {
  import opened Common
  import opened MultiKeySort

  /** The part of a lookup behind the column; Plain and Exact are different keys of the filter
      dictionary that test the same, and an unknown format tests nothing. */
  datatype Format = Plain | Exact | In | Contains | Icontains | Unknown(name: string)

  datatype Lookup = Lookup(column: string, format: Format)

  /** What a filter asks for, converted by the field (to_python): one value, or the values of a
      list, tuple or set. */
  datatype Asked = One(value: int) | Many(values: set<int>)

  /** The model: its rows, its key column, whether that is an automatic number, and the fields'
      conversion of what filters ask.  Values are represented by integers, as for sorting; text
      says which of them are strings. */
  datatype Model<!Data> = Model(data: seq<Row>, pk: string, autoField: bool, convert: (string, Data) -> Asked,
                                text: int -> Option<string>, upper: string -> string)

  /** low_mark and high_mark, once a slice was taken. */
  type Limits = Option<(Option<nat>, Option<nat>)>

  datatype QueryState<Data> =
    QueryState(filter: map<Lookup, Data>, exclude: map<Lookup, Data>, ordering: seq<Column>, standard: bool,
               empty: bool, limits: Limits)

  function ColumnOf<Data>(model: Model<Data>, lookup: Lookup): string
  {
    if lookup.column == "pk" then model.pk else lookup.column
  }

  predicate StandsAt(part: string, whole: string, i: nat)
  {
    i + |part| <= |whole| && whole[i..i + |part|] == part
  }

  predicate Contained(part: string, whole: string)
  {
    exists i :: 0 <= i <= |whole| && StandsAt(part, whole, i)
  }

  /** part in whole, for values that are strings. */
  predicate TextContained<Data>(model: Model<Data>, part: int, whole: int)
  {
    model.text(part).Some? && model.text(whole).Some? && Contained(model.text(part).value, model.text(whole).value)
  }

  /** The same without regard to case. */
  predicate UpperContained<Data>(model: Model<Data>, part: int, whole: int)
  {
    model.text(part).Some? && model.text(whole).Some?
    && Contained(model.upper(model.text(part).value), model.upper(model.text(whole).value))
  }

  /** Does a value pass?  A list never equals a value; a value is in a list, or in a string;
      contains and icontains test only when a string is asked for; other formats test nothing. */
  predicate Test<Data>(model: Model<Data>, format: Format, asked: Asked, value: int)
  {
    match format
    case Plain => asked == One(value)
    case Exact => asked == One(value)
    case In => if asked.Many? then value in asked.values else TextContained(model, value, asked.value)
    case Contains => asked.One? && model.text(asked.value).Some? ==> TextContained(model, asked.value, value)
    case Icontains => asked.One? && model.text(asked.value).Some? ==> UpperContained(model, asked.value, value)
    case Unknown(_) => true
  }

  /** One test of a filter dictionary: a row without the column passes. */
  predicate Passes<Data>(model: Model<Data>, lookup: Lookup, data: Data, row: Row)
  {
    var column := ColumnOf(model, lookup);
    column in row ==> Test(model, lookup.format, model.convert(column, data), row[column])
  }

  predicate Matches<Data>(model: Model<Data>, tests: map<Lookup, Data>, row: Row)
  {
    forall l :: l in tests ==> Passes(model, l, tests[l], row)
  }

  predicate CheckInQuery<Data>(model: Model<Data>, q: QueryState<Data>, row: Row)
  {
    !q.empty && Matches(model, q.filter, row) && !(q.exclude != map[] && Matches(model, q.exclude, row))
  }

  function Numbered<Data>(model: Model<Data>): (r: seq<Row>)
    ensures |r| == |model.data|
  {
    seq(|model.data|, i requires 0 <= i < |model.data| =>
      if model.autoField then model.data[i][model.pk := i + 1] else model.data[i])
  }

  function Filtered<Data>(model: Model<Data>, q: QueryState<Data>, rows: seq<Row>): seq<Row>
  {
    if rows == [] then [] else
    var last := rows[|rows| - 1];
    Filtered(model, q, rows[..|rows| - 1]) + (if CheckInQuery(model, q, last) then [last] else [])
  }

  /** 'pk' and '-pk' stand for the key column. */
  function OrderingOf<Data>(model: Model<Data>, ordering: seq<Column>): (r: seq<Column>)
    ensures |r| == |ordering|
  {
    seq(|ordering|, i requires 0 <= i < |ordering| =>
      if ordering[i] == "pk" then model.pk else if ordering[i] == "-pk" then "-" + model.pk else ordering[i])
  }

  /** The rows before a slice is taken; ordering by a missing column is a KeyError. */
  function Everything<Data>(model: Model<Data>, q: QueryState<Data>): Result<seq<Row>, string>
  {
    Arranged(Filtered(model, q, Numbered(model)), OrderingOf(model, q.ordering), q.standard)
  }

  /** rows[low:high]; either end may be missing or too large. */
  function Slice<T>(rows: seq<T>, limits: Limits): seq<T>
  {
    if limits.None? then rows else
    var (low, high) := limits.value;
    var end := if high.None? || high.value > |rows| then |rows| else high.value;
    rows[if low.None? then 0 else if low.value > end then end else low.value..end]
  }

  /** The rows a queryset yields. */
  function Rows<Data>(model: Model<Data>, q: QueryState<Data>): Result<seq<Row>, string>
  {
    var all := Everything(model, q);
    if all.Err? then all else Ok(Slice(all.value, q.limits))
  }

  function Arranged(rows: seq<Row>, ordering: seq<Column>, standard: bool): Result<seq<Row>, string>
  {
    if !Complete(rows, ordering) then Err("KeyError") else
    Ok(if standard then SortAll(ordering, rows) else Reversed(SortAll(ordering, rows)))
  }

  function Filter<Data>(q: QueryState<Data>, tests: map<Lookup, Data>): QueryState<Data>
  {
    q.(filter := q.filter + tests)
  }

  function Exclude<Data>(q: QueryState<Data>, tests: map<Lookup, Data>): QueryState<Data>
  {
    q.(exclude := q.exclude + tests)
  }

  function Reverse<Data>(q: QueryState<Data>): QueryState<Data>
  {
    q.(standard := !q.standard)
  }

  // ---- reverse, first and last ----

  /** reverse() yields the exact reversal, with or without an ordering, and however often the
      queryset was reversed before. */
  lemma ReverseIsExact<Data>(model: Model<Data>, q: QueryState<Data>)
    ensures Everything(model, Reverse(q)).Ok? <==> Everything(model, q).Ok?
    ensures Everything(model, q).Ok? ==> Everything(model, Reverse(q)).value == Reversed(Everything(model, q).value)
  {
    FilteredLooksAtTests(model, q, Reverse(q), Numbered(model));
    OtherWayRound(Filtered(model, q, Numbered(model)), OrderingOf(model, q.ordering), q.standard);
  }

  lemma FirstOfReverse<Data>(model: Model<Data>, q: QueryState<Data>)
    requires q.limits.None?
    ensures Rows(model, Reverse(q)).Ok? <==> Rows(model, q).Ok?
    ensures Rows(model, q).Ok? ==>
              var rows, reverse := Rows(model, q).value, Rows(model, Reverse(q)).value;
              |reverse| == |rows| && (rows != [] ==> reverse[0] == rows[|rows| - 1])
  {
    ReverseIsExact(model, q);
  }

  lemma OtherWayRound(rows: seq<Row>, ordering: seq<Column>, standard: bool)
    ensures Arranged(rows, ordering, !standard).Ok? <==> Arranged(rows, ordering, standard).Ok?
    ensures Arranged(rows, ordering, standard).Ok? ==>
              Arranged(rows, ordering, !standard).value == Reversed(Arranged(rows, ordering, standard).value)
  {
    ReversedTwice(SortAll(ordering, rows));
  }

  lemma {:induction false} FilteredLooksAtTests<Data>(model: Model<Data>, q: QueryState<Data>, p: QueryState<Data>,
                                                      rows: seq<Row>)
    requires p.filter == q.filter && p.exclude == q.exclude && p.empty == q.empty
    ensures Filtered(model, p, rows) == Filtered(model, q, rows)
    decreases |rows|
  {
    if rows != [] { FilteredLooksAtTests(model, q, p, rows[..|rows| - 1]); }
  }

  /** What a queryset yields before slicing is what it accepts of the data: sorted by the columns,
      or the reverse of that, keeping the order of rows that tie in all of them. */
  lemma RowsAreTheAccepted<Data>(model: Model<Data>, q: QueryState<Data>)
    requires Everything(model, q).Ok?
    ensures var all := Everything(model, q).value;
            var rows := if q.standard then all else Reversed(all);
            && multiset(rows) == multiset(Filtered(model, q, Numbered(model)))
            && Sorted(OrderingOf(model, q.ordering), rows)
            && (forall r :: TiedWith(OrderingOf(model, q.ordering), r, rows)
                         == TiedWith(OrderingOf(model, q.ordering), r, Filtered(model, q, Numbered(model))))
            && forall r :: r in all <==> r in Numbered(model) && CheckInQuery(model, q, r)
  {
    var all := Everything(model, q).value;
    var columns, accepted := OrderingOf(model, q.ordering), Filtered(model, q, Numbered(model));
    ReversedTwice(SortAll(columns, accepted));
    var rows := if q.standard then all else Reversed(all);
    SortAllIsTheLexicographicSort(columns, accepted, rows);
    ReversedHasSame(rows);
    AcceptedAreThere(model, q, rows);
  }

  lemma AcceptedAreThere<Data>(model: Model<Data>, q: QueryState<Data>, rows: seq<Row>)
    requires multiset(rows) == multiset(Filtered(model, q, Numbered(model)))
    ensures forall r :: r in rows <==> r in Numbered(model) && CheckInQuery(model, q, r)
  {
    forall r ensures r in rows <==> r in Numbered(model) && CheckInQuery(model, q, r) {
      FilteredHas(model, q, Numbered(model), r);
      assert r in rows <==> r in multiset(rows);
    }
  }

  /** Iterating raises a KeyError exactly when an accepted row lacks a column that is sorted by. */
  lemma KeyErrorIff<Data>(model: Model<Data>, q: QueryState<Data>, name: string)
    requires name != "pk" && name != "-pk" && (name == "" || name[0] != '-')
    ensures q.ordering == [name] ==>
              (Rows(model, q).Err? <==>
                 exists r :: r in Numbered(model) && CheckInQuery(model, q, r) && name !in r)
    ensures q.ordering == [] ==> Rows(model, q).Ok?
  {
    CompleteIff(Filtered(model, q, Numbered(model)), name);
    AcceptedAreThere(model, q, Filtered(model, q, Numbered(model)));
    assert [name][0] == name;
    assert q.ordering == [name] ==> OrderingOf(model, q.ordering) == [name];
  }

  /** Slices that meet make up everything, in order, however many rows there are. */
  lemma SlicesMeet<Data>(model: Model<Data>, q: QueryState<Data>, n: nat)
    requires Everything(model, q).Ok?
    ensures var first := Rows(model, q.(limits := Some((None, Some(n)))));
            var rest := Rows(model, q.(limits := Some((Some(n), None))));
            first.Ok? && rest.Ok? && first.value + rest.value == Everything(model, q).value
  {
    LimitsComeLast(model, q, Some((None, Some(n))));
    LimitsComeLast(model, q, Some((Some(n), None)));
    SlicesJoin(Everything(model, q).value, n);
  }

  lemma LimitsComeLast<Data>(model: Model<Data>, q: QueryState<Data>, limits: Limits)
    ensures Everything(model, q.(limits := limits)) == Everything(model, q)
  {
    FilteredLooksAtTests(model, q, q.(limits := limits), Numbered(model));
  }

  lemma SlicesJoin<T>(rows: seq<T>, n: nat)
    ensures Slice(rows, Some((None, Some(n)))) + Slice(rows, Some((Some(n), None))) == rows
  {
  }

  lemma {:induction false} FilteredHas<Data>(model: Model<Data>, q: QueryState<Data>, rows: seq<Row>, r: Row)
    ensures r in Filtered(model, q, rows) <==> r in rows && CheckInQuery(model, q, r)
    decreases |rows|
  {
    if rows != [] {
      FilteredHas(model, q, rows[..|rows| - 1], r);
      assert rows == rows[..|rows| - 1] + [rows[|rows| - 1]];
    }
  }

  // ---- what a single filter accepts ----

  /** One filter on one column: a row with the column is accepted when its value is the one asked
      for, is in the list, or has the string in it; a row without it is accepted. */
  lemma FilterAccepts<Data>(model: Model<Data>, column: string, data: Data, value: int, row: Row)
    requires column != "pk" && model.convert(column, data) == One(value)
    ensures CheckInQuery(model, Filter(AllRows(), map[Lookup(column, Plain) := data]), row) <==>
              (column in row ==> row[column] == value)
    ensures CheckInQuery(model, Filter(AllRows(), map[Lookup(column, Exact) := data]), row) <==>
              (column in row ==> row[column] == value)
    ensures model.text(value).Some? && column in row && model.text(row[column]).Some? ==>
              var part, whole := model.text(value).value, model.text(row[column]).value;
              CheckInQuery(model, Filter(AllRows(), map[Lookup(column, Contains) := data]), row) <==>
                exists i: nat :: StandsAt(part, whole, i)
    ensures model.text(value).Some? && column in row && model.text(row[column]).Some? ==>
              var part, whole := model.upper(model.text(value).value), model.upper(model.text(row[column]).value);
              CheckInQuery(model, Filter(AllRows(), map[Lookup(column, Icontains) := data]), row) <==>
                exists i: nat :: StandsAt(part, whole, i)
    ensures model.text(value).Some? && column in row && model.text(row[column]).Some? ==>
              var part, whole := model.text(row[column]).value, model.text(value).value;
              CheckInQuery(model, Filter(AllRows(), map[Lookup(column, In) := data]), row) <==>
                exists i: nat :: StandsAt(part, whole, i)
    ensures model.text(value).None? ==>
              && CheckInQuery(model, Filter(AllRows(), map[Lookup(column, Contains) := data]), row)
              && CheckInQuery(model, Filter(AllRows(), map[Lookup(column, Icontains) := data]), row)
  {
    FilterIsTest(model, Lookup(column, Plain), data, row);
    FilterIsTest(model, Lookup(column, Exact), data, row);
    FilterIsTest(model, Lookup(column, Contains), data, row);
    FilterIsTest(model, Lookup(column, Icontains), data, row);
    FilterIsTest(model, Lookup(column, In), data, row);
  }

  lemma FilterIsTest<Data>(model: Model<Data>, l: Lookup, data: Data, row: Row)
    ensures CheckInQuery(model, Filter(AllRows(), map[l := data]), row) <==> Passes(model, l, data, row)
  {
    var tests := map[l := data];
    assert map[] + tests == tests && l in tests;
  }

  /** A list asked for: to be in it, never to equal it, and no string to contain. */
  lemma ListFilterAccepts<Data>(model: Model<Data>, column: string, data: Data, values: set<int>, row: Row,
                                name: string)
    requires column != "pk" && model.convert(column, data) == Many(values)
    ensures CheckInQuery(model, Filter(AllRows(), map[Lookup(column, In) := data]), row) <==>
              (column in row ==> row[column] in values)
    ensures CheckInQuery(model, Filter(AllRows(), map[Lookup(column, Plain) := data]), row) <==> column !in row
    ensures CheckInQuery(model, Filter(AllRows(), map[Lookup(column, Contains) := data]), row)
    ensures CheckInQuery(model, Filter(AllRows(), map[Lookup(column, Unknown(name)) := data]), row)
  {
    FilterIsTest(model, Lookup(column, In), data, row);
    FilterIsTest(model, Lookup(column, Plain), data, row);
    FilterIsTest(model, Lookup(column, Contains), data, row);
    FilterIsTest(model, Lookup(column, Unknown(name)), data, row);
  }

  /** The name pk stands for the key column, in filters and excludes of every format. */
  lemma PkIsTheKey<Data>(model: Model<Data>, format: Format, data: Data, row: Row)
    requires model.pk != "pk"
    ensures CheckInQuery(model, Filter(AllRows(), map[Lookup("pk", format) := data]), row) <==>
              CheckInQuery(model, Filter(AllRows(), map[Lookup(model.pk, format) := data]), row)
    ensures CheckInQuery(model, Exclude(AllRows(), map[Lookup("pk", format) := data]), row) <==>
              CheckInQuery(model, Exclude(AllRows(), map[Lookup(model.pk, format) := data]), row)
    ensures model.pk in row && format.Plain? && model.convert(model.pk, data).One? ==>
              (CheckInQuery(model, Filter(AllRows(), map[Lookup("pk", format) := data]), row) <==>
                 row[model.pk] == model.convert(model.pk, data).value)
  {
    FilterIsTest(model, Lookup("pk", format), data, row);
    FilterIsTest(model, Lookup(model.pk, format), data, row);
    ExcludeIsNotTest(model, Lookup("pk", format), data, row);
    ExcludeIsNotTest(model, Lookup(model.pk, format), data, row);
  }

  /** An exclude accepts what the same filter does not. */
  lemma ExcludeIsNotTest<Data>(model: Model<Data>, l: Lookup, data: Data, row: Row)
    ensures CheckInQuery(model, Exclude(AllRows(), map[l := data]), row) <==>
              !CheckInQuery(model, Filter(AllRows(), map[l := data]), row)
  {
    var tests := map[l := data];
    FilterIsTest(model, l, data, row);
    assert map[] + tests == tests && l in tests;
  }

  /** Without filters everything is accepted, and after none() nothing. */
  lemma AllOrNone<Data>(model: Model<Data>, q: QueryState<Data>, row: Row)
    ensures CheckInQuery(model, AllRows(), row)
    ensures q.empty ==> !CheckInQuery(model, q, row)
    ensures q.empty && Rows(model, q).Ok? ==> Rows(model, q).value == []
  {
    if q.empty {
      NothingFiltered(model, q, Numbered(model));
      NothingSorted(OrderingOf(model, q.ordering), Filtered(model, q, Numbered(model)));
      if Rows(model, q).Ok? {
        assert |Everything(model, q).value| == 0;
        SliceIsShorter(Everything(model, q).value, q.limits);
      }
    }
  }

  lemma SliceIsShorter<T>(rows: seq<T>, limits: Limits)
    ensures |Slice(rows, limits)| <= |rows|
  {
    if limits.Some? {
      var (low, high) := limits.value;
      assert low.Some? ==> low.value >= 0;
      assert high.Some? ==> high.value >= 0;
    }
  }

  lemma NothingSorted(columns: seq<Column>, rows: seq<Row>)
    requires rows == []
    ensures |SortAll(columns, rows)| == 0
  {
    assert |multiset(SortAll(columns, rows))| == |SortAll(columns, rows)|;
  }

  lemma {:induction false} NothingFiltered<Data>(model: Model<Data>, q: QueryState<Data>, rows: seq<Row>)
    requires q.empty
    ensures Filtered(model, q, rows) == []
    decreases |rows|
  {
    if rows != [] { NothingFiltered(model, q, rows[..|rows| - 1]); }
  }

  /** Rows are numbered from 1 when the key is automatic, and otherwise as they are. */
  lemma NumberedFromOne<Data>(model: Model<Data>, i: nat)
    requires i < |model.data|
    ensures model.autoField ==> Numbered(model)[i] == model.data[i][model.pk := i + 1]
    ensures !model.autoField ==> Numbered(model)[i] == model.data[i]
  {
  }

  lemma OrderingOfKey<Data>(model: Model<Data>)
    ensures OrderingOf(model, ["pk"]) == [model.pk] && OrderingOf(model, ["-pk"]) == ["-" + model.pk]
  {
    assert "-pk"[0] != "pk"[0];
  }

  /** Ordering by pk is sorting by the key column, and by -pk sorting downwards by it. */
  lemma OrderedByKey<Data>(model: Model<Data>)
    requires (model.pk == "" || model.pk[0] != '-') && forall r :: r in Numbered(model) ==> model.pk in r
    ensures Rows(model, AllRows<Data>().(ordering := ["pk"])) == Ok(SortAll([model.pk], Numbered(model)))
    ensures Rows(model, AllRows<Data>().(ordering := ["-pk"])) == Ok(SortAll(["-" + model.pk], Numbered(model)))
  {
    OrderingOfKey(model);
    NameOfReverse(model.pk);
    OrderedBy(model, "pk", model.pk);
    OrderedBy(model, "-pk", "-" + model.pk);
  }

  lemma NameOfReverse(name: string)
    ensures NameOf("-" + name) == name
  {
    assert ("-" + name)[1..] == name;
  }

  lemma OrderedBy<Data>(model: Model<Data>, asked: Column, column: Column)
    requires OrderingOf(model, [asked]) == [column] && forall r :: r in Numbered(model) ==> NameOf(column) in r
    ensures Rows(model, AllRows<Data>().(ordering := [asked])) == Ok(SortAll([column], Numbered(model)))
  {
    AllFiltered(model, AllRows<Data>().(ordering := [asked]), Numbered(model));
  }

  lemma {:induction false} AllFiltered<Data>(model: Model<Data>, q: QueryState<Data>, rows: seq<Row>)
    requires q.filter == map[] && q.exclude == map[] && !q.empty
    ensures Filtered(model, q, rows) == rows
    decreases |rows|
  {
    if rows != [] {
      AllFiltered(model, q, rows[..|rows| - 1]);
      assert rows == rows[..|rows| - 1] + [rows[|rows| - 1]];
    }
  }

  /** Ordering by a column of the model, upwards and downwards. */
  lemma OrderedByColumn<Data>(model: Model<Data>, name: string)
    requires name != "pk" && name != "-pk" && (name == "" || name[0] != '-') && "-" + name != "-pk"
    requires forall r :: r in Numbered(model) ==> name in r
    ensures Rows(model, AllRows<Data>().(ordering := [name])) == Ok(SortAll([name], Numbered(model)))
    ensures Rows(model, AllRows<Data>().(ordering := ["-" + name])) == Ok(SortAll(["-" + name], Numbered(model)))
  {
    assert ("-" + name)[1..] == name && ("-" + name)[0] == '-' && "pk"[0] != '-';
    OrderedBy(model, name, name);
    OrderedBy(model, "-" + name, "-" + name);
  }

  /** A slice with both marks has the rows between them; marks beyond the end are the end, and
      marks that cross give nothing. */
  lemma SliceIsWindow<T>(rows: seq<T>, low: nat, high: nat)
    ensures low <= high <= |rows| ==> Slice(rows, Some((Some(low), Some(high)))) == rows[low..high]
    ensures low <= |rows| <= high ==> Slice(rows, Some((Some(low), Some(high)))) == rows[low..]
    ensures low >= |rows| || low >= high ==> Slice(rows, Some((Some(low), Some(high)))) == []
    ensures Slice(rows, None) == rows && Slice(rows, Some((None, None))) == rows
  {
  }

  // ---- chained filters ----

  predicate Agree<Data(==)>(a: map<Lookup, Data>, b: map<Lookup, Data>)
  {
    forall l :: l in a && l in b ==> a[l] == b[l]
  }

  lemma MatchesBoth<Data>(model: Model<Data>, a: map<Lookup, Data>, b: map<Lookup, Data>, row: Row)
    requires Agree(a, b)
    ensures Matches(model, a + b, row) <==> Matches(model, a, row) && Matches(model, b, row)
  {
    if Matches(model, a + b, row) {
      forall l | l in a ensures Passes(model, l, a[l], row) { assert l in a + b; }
      forall l | l in b ensures Passes(model, l, b[l], row) { assert l in a + b; }
    }
  }

  /** Filters that do not disagree about a lookup commute and compose as a conjunction. */
  lemma FiltersCompose<Data>(model: Model<Data>, q: QueryState<Data>, a: map<Lookup, Data>, b: map<Lookup, Data>,
                             row: Row)
    requires Agree(q.filter, a) && Agree(q.filter, b) && Agree(a, b)
    ensures Filter(Filter(q, a), b) == Filter(Filter(q, b), a)
    ensures CheckInQuery(model, Filter(Filter(q, a), b), row) <==>
            CheckInQuery(model, Filter(q, a), row) && CheckInQuery(model, Filter(q, b), row)
  {
    assert q.filter + a + b == q.filter + b + a;
    MatchesBoth(model, q.filter, a, row);
    MatchesBoth(model, q.filter, b, row);
    MatchesBoth(model, q.filter + a, b, row);
  }

  /** A second filter on the same lookup replaces the first, whatever it was. */
  lemma SameLookupOverwrites<Data>(q: QueryState<Data>, l: Lookup, x: Data, y: Data)
    ensures Filter(Filter(q, map[l := x]), map[l := y]) == Filter(q, map[l := y])
  {
    assert q.filter + map[l := x] + map[l := y] == q.filter + map[l := y];
  }

  /** Chained excludes merge into one conjunction: a row survives both when it survives either. */
  lemma ExcludesMerge<Data>(model: Model<Data>, q: QueryState<Data>, a: map<Lookup, Data>, b: map<Lookup, Data>,
                            row: Row)
    requires q.exclude == map[] && a != map[] && b != map[] && Agree(a, b)
    ensures CheckInQuery(model, Exclude(Exclude(q, a), b), row) <==>
            CheckInQuery(model, Exclude(q, a), row) || CheckInQuery(model, Exclude(q, b), row)
  {
    assert map[] + a == a && map[] + b == b;
    MatchesBoth(model, a, b, row);
    var l :| l in a;
    assert l in a + b;
  }

  // ---- exactly when chaining means what it says ----

  /** A value in one column passes the tests of that column. */
  ghost predicate PassesAt<Data>(model: Model<Data>, tests: map<Lookup, Data>, column: string, value: int)
  {
    forall l :: l in tests && ColumnOf(model, l) == column ==>
      Test(model, l.format, model.convert(column, tests[l]), value)
  }

  lemma MatchesByColumn<Data>(model: Model<Data>, tests: map<Lookup, Data>, row: Row)
    ensures Matches(model, tests, row) <==> forall c :: c in row ==> PassesAt(model, tests, c, row[c])
  {
    if forall c :: c in row ==> PassesAt(model, tests, c, row[c]) {
      forall l | l in tests ensures Passes(model, l, tests[l], row) {
        var c := ColumnOf(model, l);
        assert c in row ==> PassesAt(model, tests, c, row[c]);
      }
    }
    if Matches(model, tests, row) {
      forall c | c in row ensures PassesAt(model, tests, c, row[c]) {
        forall l | l in tests && ColumnOf(model, l) == c
          ensures Test(model, l.format, model.convert(c, tests[l]), row[c])
        {
          assert Passes(model, l, tests[l], row);
        }
      }
    }
  }

  /** Column by column and value by value, what passes the tests of b passes those of a. */
  ghost predicate Implied<Data>(model: Model<Data>, a: map<Lookup, Data>, b: map<Lookup, Data>)
  {
    forall column, value :: PassesAt(model, b, column, value) ==> PassesAt(model, a, column, value)
  }

  /** What is implied by column is implied on rows, and the other way round. */
  lemma ImpliedIff<Data>(model: Model<Data>, a: map<Lookup, Data>, b: map<Lookup, Data>)
    ensures Implied(model, a, b) <==> forall row :: Matches(model, b, row) ==> Matches(model, a, row)
  {
    if Implied(model, a, b) {
      forall row | Matches(model, b, row) ensures Matches(model, a, row) {
        MatchesByColumn(model, a, row);
        MatchesByColumn(model, b, row);
      }
    }
    if forall row :: Matches(model, b, row) ==> Matches(model, a, row) {
      forall column, value | PassesAt(model, b, column, value) ensures PassesAt(model, a, column, value) {
        LoneValue(model, a, column, value);
        LoneValue(model, b, column, value);
      }
    }
  }

  lemma LoneValue<Data>(model: Model<Data>, tests: map<Lookup, Data>, column: string, value: int)
    ensures Matches(model, tests, map[column := value]) <==> PassesAt(model, tests, column, value)
  {
    MatchesByColumn(model, tests, map[column := value]);
  }

  function AllRows<Data>(): QueryState<Data>
  {
    QueryState(map[], map[], [], true, false, None)
  }

  ghost predicate FiltersConjoin<Data>(model: Model<Data>, a: map<Lookup, Data>, b: map<Lookup, Data>, row: Row)
  {
    CheckInQuery(model, Filter(Filter(AllRows(), a), b), row) <==>
      CheckInQuery(model, Filter(AllRows(), a), row) && CheckInQuery(model, Filter(AllRows(), b), row)
  }

  lemma LastIsKept<Data>(model: Model<Data>, a: map<Lookup, Data>, b: map<Lookup, Data>, row: Row)
    ensures Matches(model, a + b, row) ==> Matches(model, b, row)
    ensures Matches(model, a, row) && Matches(model, b, row) ==> Matches(model, a + b, row)
  {
    if Matches(model, a + b, row) {
      forall l | l in b ensures Passes(model, l, b[l], row) { assert l in a + b; }
    }
  }

  /** Chaining two filters selects what both select, whatever the rows, if and only if in no
      column the merged dictionary lets a value through that the first one stops. */
  lemma FiltersConjoinIff<Data>(model: Model<Data>, a: map<Lookup, Data>, b: map<Lookup, Data>)
    ensures (forall row :: FiltersConjoin(model, a, b, row)) <==> Implied(model, a, a + b)
  {
    assert map[] + a == a && map[] + b == b;
    ImpliedIff(model, a, a + b);
    if Implied(model, a, a + b) {
      forall row ensures FiltersConjoin(model, a, b, row) { LastIsKept(model, a, b, row); }
    }
    if forall row :: FiltersConjoin(model, a, b, row) {
      forall row | Matches(model, a + b, row) ensures Matches(model, a, row) {
        assert FiltersConjoin(model, a, b, row);
      }
    }
  }

  /** What the formats are meant for: one value to be equal to, a list to be in, and a string to
      contain. */
  predicate IsUsual<Data>(model: Model<Data>, format: Format, asked: Asked)
  {
    match format
    case Plain => asked.One?
    case Exact => asked.One?
    case In => asked.Many?
    case Contains => asked.One? && model.text(asked.value).Some?
    case Icontains => asked.One? && model.text(asked.value).Some?
    case Unknown(_) => true
  }

  /** Asking for less: the same value, fewer values, a longer string. */
  predicate Narrows<Data>(model: Model<Data>, format: Format, asked: Asked, second: Asked)
    requires IsUsual(model, format, asked) && IsUsual(model, format, second)
  {
    match format
    case Plain => second == asked
    case Exact => second == asked
    case In => second.values <= asked.values
    case Contains => TextContained(model, asked.value, second.value)
    case Icontains => UpperContained(model, asked.value, second.value)
    case Unknown(_) => true
  }

  lemma ContainedTransitive(a: string, b: string, c: string)
    requires Contained(a, b) && Contained(b, c)
    ensures Contained(a, c)
  {
    var i :| 0 <= i <= |b| && StandsAt(a, b, i);
    var j :| 0 <= j <= |c| && StandsAt(b, c, j);
    var part := c[j + i..j + i + |a|];
    forall k | 0 <= k < |a| ensures part[k] == a[k] {
      assert part[k] == c[j..j + |b|][i + k] == b[i..i + |a|][k];
    }
    assert part == a;
    assert StandsAt(a, c, j + i);
  }

  lemma ContainsItself(a: string)
    ensures Contained(a, a)
  {
    assert StandsAt(a, a, 0);
  }

  lemma NarrowsIff<Data>(model: Model<Data>, format: Format, asked: Asked, second: Asked)
    requires IsUsual(model, format, asked) && IsUsual(model, format, second)
    ensures (forall value :: Test(model, format, second, value) ==> Test(model, format, asked, value)) <==>
              Narrows(model, format, asked, second)
  {
    if format.Plain? || format.Exact? {
      assert Test(model, format, second, second.value);
    }
    if format.In? {
      if forall value :: Test(model, format, second, value) ==> Test(model, format, asked, value) {
        forall v | v in second.values ensures v in asked.values { assert Test(model, format, second, v); }
      }
    }
    if format.Contains? { ContainsNarrows(model, asked.value, second.value); }
    if format.Icontains? { IcontainsNarrows(model, asked.value, second.value); }
  }

  lemma ContainsNarrows<Data>(model: Model<Data>, x: int, y: int)
    requires model.text(x).Some? && model.text(y).Some?
    ensures (forall value :: Test(model, Contains, One(y), value) ==> Test(model, Contains, One(x), value)) <==>
              TextContained(model, x, y)
  {
    ContainsItself(model.text(y).value);
    assert Test(model, Contains, One(y), y);
    if TextContained(model, x, y) {
      forall value | Test(model, Contains, One(y), value) ensures Test(model, Contains, One(x), value) {
        ContainedTransitive(model.text(x).value, model.text(y).value, model.text(value).value);
      }
    }
  }

  lemma IcontainsNarrows<Data>(model: Model<Data>, x: int, y: int)
    requires model.text(x).Some? && model.text(y).Some?
    ensures (forall value :: Test(model, Icontains, One(y), value) ==> Test(model, Icontains, One(x), value)) <==>
              UpperContained(model, x, y)
  {
    ContainsItself(model.upper(model.text(y).value));
    assert Test(model, Icontains, One(y), y);
    if UpperContained(model, x, y) {
      forall value | Test(model, Icontains, One(y), value) ensures Test(model, Icontains, One(x), value) {
        ContainedTransitive(model.upper(model.text(x).value), model.upper(model.text(y).value),
                            model.upper(model.text(value).value));
      }
    }
  }

  /** No two lookups test one column. */
  predicate OnePerColumn<Data>(model: Model<Data>, tests: map<Lookup, Data>)
  {
    forall l, m :: l in tests && m in tests && ColumnOf(model, l) == ColumnOf(model, m) ==> l == m
  }

  predicate AllUsual<Data>(model: Model<Data>, tests: map<Lookup, Data>)
  {
    forall l :: l in tests ==> IsUsual(model, l.format, model.convert(ColumnOf(model, l), tests[l]))
  }

  /** Where both test a lookup, the second asks for no more than the first. */
  predicate Tightens<Data>(model: Model<Data>, a: map<Lookup, Data>, b: map<Lookup, Data>)
    requires AllUsual(model, a) && AllUsual(model, b)
  {
    forall l :: l in a && l in b ==>
      var column := ColumnOf(model, l);
      Narrows(model, l.format, model.convert(column, a[l]), model.convert(column, b[l]))
  }

  /** For dictionaries used as usual and with one lookup per column, what has to be looked at is
      just the lookups they share. */
  lemma FiltersConjoinIffTightened<Data>(model: Model<Data>, a: map<Lookup, Data>, b: map<Lookup, Data>)
    requires AllUsual(model, a) && AllUsual(model, b) && OnePerColumn(model, a + b)
    ensures (forall row :: FiltersConjoin(model, a, b, row)) <==> Tightens(model, a, b)
  {
    FiltersConjoinIff(model, a, b);
    forall l | l in a && l in b
      ensures var column := ColumnOf(model, l);
              Narrows(model, l.format, model.convert(column, a[l]), model.convert(column, b[l])) <==>
              forall value :: PassesAt(model, a + b, column, value) ==> PassesAt(model, a, column, value)
    {
      SharedLookup(model, a, b, l);
    }
    if Tightens(model, a, b) {
      forall column, value | PassesAt(model, a + b, column, value) ensures PassesAt(model, a, column, value) {
        TightenedColumn(model, a, b, column, value);
      }
    }
  }

  lemma SharedLookup<Data>(model: Model<Data>, a: map<Lookup, Data>, b: map<Lookup, Data>, l: Lookup)
    requires AllUsual(model, a) && AllUsual(model, b) && OnePerColumn(model, a + b) && l in a && l in b
    ensures var column := ColumnOf(model, l);
            Narrows(model, l.format, model.convert(column, a[l]), model.convert(column, b[l])) <==>
            forall value :: PassesAt(model, a + b, column, value) ==> PassesAt(model, a, column, value)
  {
    var column := ColumnOf(model, l);
    NarrowsIff(model, l.format, model.convert(column, a[l]), model.convert(column, b[l]));
    OnlyLookup(model, a + b, a, l);
    OnlyLookup(model, a + b, a + b, l);
  }

  /** With one lookup per column, a column is tested by that lookup alone. */
  lemma OnlyLookup<Data>(model: Model<Data>, all: map<Lookup, Data>, tests: map<Lookup, Data>, l: Lookup)
    requires OnePerColumn(model, all) && l in tests && forall m :: m in tests ==> m in all
    ensures var column := ColumnOf(model, l);
            forall value ::
              PassesAt(model, tests, column, value) <==> Test(model, l.format, model.convert(column, tests[l]), value)
  {
  }

  lemma TightenedColumn<Data>(model: Model<Data>, a: map<Lookup, Data>, b: map<Lookup, Data>,
                              column: string, value: int)
    requires AllUsual(model, a) && AllUsual(model, b) && OnePerColumn(model, a + b) && Tightens(model, a, b)
    requires PassesAt(model, a + b, column, value)
    ensures PassesAt(model, a, column, value)
  {
    forall l | l in a && ColumnOf(model, l) == column
      ensures Test(model, l.format, model.convert(column, a[l]), value)
    {
      assert l in a + b;
      if l in b {
        NarrowsIff(model, l.format, model.convert(column, a[l]), model.convert(column, b[l]));
      }
    }
  }

  /** One column is asked to equal two different values, one after the other: a row that holds
      the second is selected, though the first filter does not select it. */
  lemma DisagreeingFilters<Data>(model: Model<Data>, l: Lookup, x: Data, y: Data, u: int, v: int)
    requires l.format.Plain? || l.format.Exact?
    requires model.convert(ColumnOf(model, l), x) == One(u) && model.convert(ColumnOf(model, l), y) == One(v) && u != v
    ensures !FiltersConjoin(model, map[l := x], map[l := y], map[ColumnOf(model, l) := v])
  {
    var a, b, row := map[l := x], map[l := y], map[ColumnOf(model, l) := v];
    assert map[] + a == a && map[] + b == b && a + b == b;
    assert !Passes(model, l, a[l], row);
    assert Passes(model, l, b[l], row);
  }

  /** When several lookups test one column, another one may hide the disagreement: here the
      second filter selects no row that has the column anyway. */
  lemma HiddenDisagreement<Data>(model: Model<Data>, column: string, x: Data, y: Data, none: Data)
    requires model.convert(ColumnOf(model, Lookup(column, In)), none) == Many({})
    ensures var a := map[Lookup(column, Plain) := x];
            var b := map[Lookup(column, Plain) := y, Lookup(column, In) := none];
            forall row :: FiltersConjoin(model, a, b, row)
  {
    var a := map[Lookup(column, Plain) := x];
    var b := map[Lookup(column, Plain) := y, Lookup(column, In) := none];
    FiltersConjoinIff(model, a, b);
    forall c, value | PassesAt(model, a + b, c, value) ensures PassesAt(model, a, c, value) {
      assert Lookup(column, In) in a + b && (a + b)[Lookup(column, In)] == none;
    }
  }

  ghost predicate ExcludesConjoin<Data>(model: Model<Data>, a: map<Lookup, Data>, b: map<Lookup, Data>, row: Row)
  {
    CheckInQuery(model, Exclude(Exclude(AllRows(), a), b), row) <==>
      CheckInQuery(model, Exclude(AllRows(), a), row) && CheckInQuery(model, Exclude(AllRows(), b), row)
  }

  /** Chaining two excludes leaves out what either leaves out, whatever the rows, if and only if
      one of them is empty or in every column either alone stops whatever the merged dictionary
      stops. */
  lemma ExcludesConjoinIff<Data>(model: Model<Data>, a: map<Lookup, Data>, b: map<Lookup, Data>)
    ensures (forall row :: ExcludesConjoin(model, a, b, row)) <==>
              a == map[] || b == map[] || (Implied(model, a + b, a) && Implied(model, a + b, b))
  {
    assert map[] + a == a && map[] + b == b;
    if a == map[] || b == map[] {
      assert a + map[] == a;
    } else {
      NotEmpty(a, b);
      ImpliedIff(model, a + b, a);
      ImpliedIff(model, a + b, b);
      forall row ensures ExcludesConjoin(model, a, b, row) <==>
                           ((Matches(model, a, row) || Matches(model, b, row)) ==> Matches(model, a + b, row))
      {
        LastIsKept(model, a, b, row);
      }
    }
  }

  lemma NotEmpty<Data>(a: map<Lookup, Data>, b: map<Lookup, Data>)
    requires a != map[]
    ensures a + b != map[]
  {
    var l :| l in a;
    assert l in a + b;
  }

  /** Excludes on one lookup, used as usual: only the second counts, so it must ask for as much. */
  lemma ExcludesOnOneLookup<Data>(model: Model<Data>, l: Lookup, x: Data, y: Data)
    requires IsUsual(model, l.format, model.convert(ColumnOf(model, l), x))
    requires IsUsual(model, l.format, model.convert(ColumnOf(model, l), y))
    ensures (forall row :: ExcludesConjoin(model, map[l := x], map[l := y], row)) <==>
              Narrows(model, l.format, model.convert(ColumnOf(model, l), y), model.convert(ColumnOf(model, l), x))
  {
    var a, b, column := map[l := x], map[l := y], ColumnOf(model, l);
    assert a + b == b && l in a;
    ExcludesConjoinIff(model, a, b);
    NarrowsIff(model, l.format, model.convert(column, y), model.convert(column, x));
    OnlyLookup(model, a, a, l);
    OnlyLookup(model, b, b, l);
    forall c, value | c != column ensures PassesAt(model, b, c, value) {}
  }

  /** Excludes on two columns: a row that only the first leaves out comes back. */
  lemma ExcludesOnTwoColumns<Data>(model: Model<Data>, l: Lookup, x: Data, u: int, m: Lookup, y: Data, w: int)
    requires ColumnOf(model, l) != ColumnOf(model, m)
    requires Test(model, l.format, model.convert(ColumnOf(model, l), x), u)
    requires !Test(model, m.format, model.convert(ColumnOf(model, m), y), w)
    ensures !ExcludesConjoin(model, map[l := x], map[m := y], map[ColumnOf(model, l) := u, ColumnOf(model, m) := w])
  {
    var a, b, row := map[l := x], map[m := y], map[ColumnOf(model, l) := u, ColumnOf(model, m) := w];
    assert map[] + a == a && map[] + b == b && l in a && m in b && m in a + b;
    assert Passes(model, l, a[l], row);
    assert !Passes(model, m, b[m], row) && !Passes(model, m, (a + b)[m], row);
  }

  // ---- querysets as objects ----

  class Dict<Data> {
    var items: map<Lookup, Data>

    constructor (items: map<Lookup, Data>)
      ensures this.items == items
    {
      this.items := items;
    }

    method Update(more: map<Lookup, Data>)
      modifies this
      ensures items == old(items) + more
    {
      items := items + more;
    }
  }

  /** A copy of the data, numbered in place when the key is an automatic number. */
  method Enumerate<Data>(model: Model<Data>) returns (items: seq<Row>)
    ensures items == Numbered(model)
  {
    items := model.data;
    if model.autoField {
      for i := 0 to |items|
        invariant |items| == |model.data|
        invariant forall k :: 0 <= k < i ==> items[k] == Numbered(model)[k]
        invariant forall k :: i <= k < |items| ==> items[k] == model.data[k]
      {
        items := items[i := items[i][model.pk := i + 1]];
      }
    }
  }

  method Select<Data>(model: Model<Data>, q: QueryState<Data>, items: seq<Row>) returns (rows: seq<Row>)
    ensures rows == Filtered(model, q, items)
  {
    rows := [];
    for i := 0 to |items|
      invariant rows == Filtered(model, q, items[..i])
    {
      assert items[..i + 1][..i] == items[..i];
      if CheckInQuery(model, q, items[i]) {
        rows := rows + [items[i]];
      }
    }
    assert items[..|items|] == items;
  }

  /** Order the rows, or only reverse them when there is no ordering. */
  method Arrange(rows: seq<Row>, ordering: seq<Column>, standard: bool) returns (r: Result<seq<Row>, string>)
    ensures r == Arranged(rows, ordering, standard)
  {
    var list := new PyList(rows);
    if ordering != [] {
      var columns := new PyList(ordering);
      var sorted := SortByColumns(list, columns, !standard);
      if sorted.Err? {
        return Err("KeyError");
      }
    } else if !standard {
      list.ReverseInPlace();
    }
    r := Ok(list.elems);
  }

  class Query<Data> {
    var filter: Dict?<Data>
    var exclude: Dict?<Data>
    var ordering: seq<Column>
    var standardOrdering: bool
    var empty: bool
    var limits: Limits

    function State(): QueryState<Data>
      reads this, filter, exclude
    {
      QueryState(if filter == null then map[] else filter.items, if exclude == null then map[] else exclude.items,
                 ordering, standardOrdering, empty, limits)
    }

    constructor ()
      ensures State() == AllRows()
      ensures filter == null && exclude == null
    {
      filter := null;
      exclude := null;
      ordering := [];
      standardOrdering := true;
      empty := false;
      limits := None;
    }

    /** deepcopy: the dictionaries are copied too. */
    method Clone() returns (c: Query<Data>)
      ensures fresh(c) && c.State() == State()
      ensures c.filter != null ==> fresh(c.filter)
      ensures c.exclude != null ==> fresh(c.exclude)
      ensures c.filter != null && c.exclude != null ==> c.filter != c.exclude
    {
      c := new Query();
      if filter != null { c.filter := new Dict(filter.items); }
      if exclude != null { c.exclude := new Dict(exclude.items); }
      c.ordering := ordering;
      c.standardOrdering := standardOrdering;
      c.empty := empty;
      c.limits := limits;
    }

    /** filter() and exclude().  The dictionary is updated in place, but only the clone's:
        neither this query nor any other object that existed before is modified. */
    method FilterOrExclude(negate: bool, kwargs: map<Lookup, Data>) returns (c: Query<Data>)
      ensures fresh(c)
      ensures c.State() == if negate then Exclude(State(), kwargs) else Filter(State(), kwargs)
    {
      c := Clone();
      if negate {
        if c.exclude == null { c.exclude := new Dict(map[]); }
        c.exclude.Update(kwargs);
      } else {
        if c.filter == null { c.filter := new Dict(map[]); }
        c.filter.Update(kwargs);
      }
    }

    /** Neither reversing nor ordering is possible once a slice was taken. */
    method Reversal() returns (r: Result<Query<Data>, string>)
      ensures r.Err? <==> limits.Some?
      ensures r.Ok? ==> fresh(r.value) && r.value.State() == Reverse(State())
    {
      if limits.Some? {
        return Err("TypeError");
      }
      var c := Clone();
      c.standardOrdering := !c.standardOrdering;
      r := Ok(c);
    }

    method OrderBy(columns: seq<Column>) returns (r: Result<Query<Data>, string>)
      ensures r.Err? <==> limits.Some?
      ensures r.Ok? ==> fresh(r.value) && r.value.State() == State().(ordering := columns)
    {
      if limits.Some? {
        return Err("TypeError");
      }
      var c := Clone();
      c.ordering := [];
      c.ordering := columns;
      r := Ok(c);
    }

    /** queryset[low:high], which sets both marks. */
    method Sliced(low: Option<nat>, high: Option<nat>) returns (c: Query<Data>)
      ensures fresh(c) && c.State() == State().(limits := Some((low, high)))
    {
      c := Clone();
      c.limits := Some((low, high));
    }

    /** Number, filter, order, slice. */
    method Iterate(model: Model<Data>) returns (r: Result<seq<Row>, string>)
      ensures r == Rows(model, State())
    {
      var items := Enumerate(model);
      var rows := Select(model, State(), items);
      r := Arrange(rows, OrderingOf(model, ordering), standardOrdering);
      if r.Ok? {
        r := Ok(Slice(r.value, limits));
      }
    }

    method First(model: Model<Data>) returns (r: Result<Option<Row>, string>)
      ensures r.Ok? <==> Rows(model, State()).Ok?
      ensures r.Ok? ==> var rows := Rows(model, State()).value;
                        r.value == if rows == [] then None else Some(rows[0])
    {
      var rows := Iterate(model);
      if rows.Err? { return Err(rows.error); }
      r := Ok(if rows.value == [] then None else Some(rows.value[0]));
    }

    /** reverse().first() is the final row. */
    method Last(model: Model<Data>) returns (r: Result<Option<Row>, string>)
      ensures r.Ok? <==> limits.None? && Rows(model, State()).Ok?
      ensures r.Ok? ==> var rows := Rows(model, State()).value;
                        r.value == if rows == [] then None else Some(rows[|rows| - 1])
    {
      var c := Reversal();
      if c.Err? { return Err(c.error); }
      FirstOfReverse(model, State());
      r := c.value.First(model);
    }
  }
}
