/** The crontab column validator and normaliser (CrontabField in vstutils/api/fields.py). */
module Crontab {
  import opened Common
  import opened Text

  datatype Interval = Minute | Hour | Day | Month | Weekday

  /** Malformed stands for the exceptions other than ValidationError that unpacking a split
      into the wrong number of parts raises. */
  datatype Error =
    | Invalid
    | InvalidDelimiter(interval: Interval)
    | InvalidTimeRange(interval: Interval)
    | ToManyColumns
    | Malformed

  type Validation = Result<(), Error>

  function First(interval: Interval): nat
  {
    match interval
    case Minute => 0
    case Hour => 0
    case Day => 1
    case Month => 1
    case Weekday => 0
  }

  function Last(interval: Interval): nat
  {
    match interval
    case Minute => 59
    case Hour => 23
    case Day => 31
    case Month => 12
    case Weekday => 6
  }

  function Digit(n: nat): char
    requires n < 10
  {
    '0' + n as char
  }

  /** str(n) */
  function Str(n: nat): (s: string)
    requires n < 100
  {
    if n < 10 then [Digit(n)] else [Digit(n / 10), Digit(n % 10)]
  }

  predicate IsChoice(interval: Interval, s: string)
  {
    exists n :: First(interval) <= n <= Last(interval) && s == Str(n)
  }

  /** str.isdigit, for ASCII. */
  predicate IsDigits(s: string)
  {
    s != "" && forall c :: c in s ==> '0' <= c <= '9'
  }

  // ---- the validator ----

  function MakeValidation(interval: Interval, value: string): Validation
    decreases |value|, 1
  {
    if value == "*" then Ok(())
    else if value in {"", "-", "/", ","} then Err(Invalid)
    else if ',' in value then ValidateAll(interval, Split(value, ','), value)
    else if '/' in value then
      var parts := Split(value, '/');
      if |parts| != 2 then Err(Malformed)
      else if !IsDigits(parts[1]) then Err(InvalidDelimiter(interval))
      else MakeValidation(interval, parts[0])
    else if '-' in value then
      var parts := Split(value, '-');
      if |parts| != 2 then Err(Malformed)
      else
        var minimal := MakeValidation(interval, parts[0]);
        if minimal.Err? then minimal else MakeValidation(interval, parts[1])
    else if IsChoice(interval, value) then Ok(())
    else Err(InvalidTimeRange(interval))
  }

  /** The first failure among some parts of a longer value. */
  function ValidateAll(interval: Interval, parts: seq<string>, value: string): Validation
    requires forall p :: p in parts ==> |p| < |value|
    decreases |value|, 0, |parts|
  {
    if parts == [] then Ok(()) else
    var r := MakeValidation(interval, parts[0]);
    if r.Err? then r else ValidateAll(interval, parts[1..], value)
  }

  // ---- the grammar ----

  /** atom = "*" | number of the interval */
  predicate IsAtom(interval: Interval, s: string)
  {
    s == "*" || IsChoice(interval, s)
  }

  /** range = atom [ "-" atom ] */
  ghost predicate IsRange(interval: Interval, s: string)
  {
    IsAtom(interval, s) || exists a, b :: IsAtom(interval, a) && IsAtom(interval, b) && s == a + "-" + b
  }

  /** item = range [ "/" digits ] */
  ghost predicate IsItem(interval: Interval, s: string)
  {
    IsRange(interval, s) || exists r, d :: IsRange(interval, r) && IsDigits(d) && s == r + "/" + d
  }

  /** column = item { "," item } */
  ghost predicate IsColumn(interval: Interval, s: string)
  {
    exists items :: items != [] && Join(items, ',') == s && forall i :: i in items ==> IsItem(interval, i)
  }

  lemma ChoiceHasDigits(interval: Interval, s: string)
    requires IsChoice(interval, s)
    ensures IsDigits(s)
  {
    var n :| First(interval) <= n <= Last(interval) && s == Str(n);
  }

  lemma AtomIsPlain(interval: Interval, s: string)
    requires IsAtom(interval, s)
    ensures ',' !in s && '/' !in s && '-' !in s && s != ""
  {
    if s != "*" { ChoiceHasDigits(interval, s); }
  }

  lemma RangeIsPlain(interval: Interval, s: string)
    requires IsRange(interval, s)
    ensures ',' !in s && '/' !in s && s != ""
  {
    if IsAtom(interval, s) { AtomIsPlain(interval, s); }
    else {
      var a, b :| IsAtom(interval, a) && IsAtom(interval, b) && s == a + "-" + b;
      AtomIsPlain(interval, a);
      AtomIsPlain(interval, b);
    }
  }

  lemma ItemIsPlain(interval: Interval, s: string)
    requires IsItem(interval, s)
    ensures ',' !in s && s != ""
  {
    if IsRange(interval, s) { RangeIsPlain(interval, s); }
    else {
      var r, d :| IsRange(interval, r) && IsDigits(d) && s == r + "/" + d;
      RangeIsPlain(interval, r);
    }
  }

  lemma AtomAccepted(interval: Interval, s: string)
    requires ',' !in s && '/' !in s && '-' !in s
    ensures MakeValidation(interval, s).Ok? <==> IsAtom(interval, s)
  {
    if IsAtom(interval, s) { AtomIsPlain(interval, s); }
  }

  /** The grammar of a range, read off the split. */
  lemma RangeIsTwoAtoms(interval: Interval, s: string)
    requires '-' in s
    ensures var parts := Split(s, '-');
            IsRange(interval, s) <==> |parts| == 2 && IsAtom(interval, parts[0]) && IsAtom(interval, parts[1])
  {
    var parts := Split(s, '-');
    if IsAtom(interval, s) { AtomIsPlain(interval, s); }
    if IsRange(interval, s) {
      var a, b :| IsAtom(interval, a) && IsAtom(interval, b) && s == a + "-" + b;
      AtomIsPlain(interval, a);
      AtomIsPlain(interval, b);
      TwoParts(s, '-', a, b);
    }
    if |parts| == 2 {
      assert parts == [parts[0], parts[1]];
      TwoParts(s, '-', parts[0], parts[1]);
    }
  }

  lemma ItemIsRangeAndStep(interval: Interval, s: string)
    requires '/' in s
    ensures var parts := Split(s, '/');
            IsItem(interval, s) <==> |parts| == 2 && IsRange(interval, parts[0]) && IsDigits(parts[1])
  {
    var parts := Split(s, '/');
    if IsRange(interval, s) { RangeIsPlain(interval, s); }
    if IsItem(interval, s) {
      var r, d :| IsRange(interval, r) && IsDigits(d) && s == r + "/" + d;
      RangeIsPlain(interval, r);
      TwoParts(s, '/', r, d);
    }
    if |parts| == 2 {
      assert parts == [parts[0], parts[1]];
      TwoParts(s, '/', parts[0], parts[1]);
    }
  }

  /** What the validator does with a value that has a dash, and with one that has a slash. */
  lemma DashUnfolds(interval: Interval, s: string)
    requires '-' in s && ',' !in s && '/' !in s && s != "-"
    ensures var parts := Split(s, '-');
            MakeValidation(interval, s).Ok? <==>
            |parts| == 2 && MakeValidation(interval, parts[0]).Ok? && MakeValidation(interval, parts[1]).Ok?
  {
  }

  lemma SlashUnfolds(interval: Interval, s: string)
    requires '/' in s && ',' !in s && s != "/"
    ensures var parts := Split(s, '/');
            MakeValidation(interval, s).Ok? <==>
            |parts| == 2 && IsDigits(parts[1]) && MakeValidation(interval, parts[0]).Ok?
  {
  }

  lemma CommaUnfolds(interval: Interval, s: string)
    requires ',' in s && s != ","
    ensures MakeValidation(interval, s) == ValidateAll(interval, Split(s, ','), s)
  {
  }

  lemma RangeAccepted(interval: Interval, s: string)
    requires ',' !in s && '/' !in s
    ensures MakeValidation(interval, s).Ok? <==> IsRange(interval, s)
  {
    if s == "-" {
      TwoParts(s, '-', "", "");
      RangeIsTwoAtoms(interval, s);
      AtomNotEmpty(interval);
    } else if '-' in s {
      DashedAccepted(interval, s);
    } else {
      AtomAccepted(interval, s);
    }
  }

  lemma DashedAccepted(interval: Interval, s: string)
    requires '-' in s && ',' !in s && '/' !in s && s != "-"
    ensures MakeValidation(interval, s).Ok? <==> IsRange(interval, s)
  {
    var parts := Split(s, '-');
    DashUnfolds(interval, s);
    RangeIsTwoAtoms(interval, s);
    SplitKeepsFree(s, '-', ',');
    SplitKeepsFree(s, '-', '/');
    AtomAccepted(interval, parts[0]);
    AtomAccepted(interval, parts[1]);
  }

  lemma AtomNotEmpty(interval: Interval)
    ensures !IsAtom(interval, "")
  {
    if IsAtom(interval, "") { AtomIsPlain(interval, ""); }
  }

  lemma ItemAccepted(interval: Interval, s: string)
    requires ',' !in s
    ensures MakeValidation(interval, s).Ok? <==> IsItem(interval, s)
  {
    if s == "/" {
      TwoParts(s, '/', "", "");
      ItemIsRangeAndStep(interval, s);
    } else if '/' in s {
      SlashUnfolds(interval, s);
      ItemIsRangeAndStep(interval, s);
      SplitKeepsFree(s, '/', ',');
      RangeAccepted(interval, Split(s, '/')[0]);
    } else {
      RangeAccepted(interval, s);
    }
  }

  lemma {:induction false} AllAccepted(interval: Interval, parts: seq<string>, value: string)
    requires forall p :: p in parts ==> |p| < |value| && ',' !in p
    ensures ValidateAll(interval, parts, value).Ok? <==> AllItems(interval, parts)
    decreases |parts|
  {
    if parts != [] {
      ItemAccepted(interval, parts[0]);
      AllAccepted(interval, parts[1..], value);
      assert parts == [parts[0]] + parts[1..];
    }
  }

  ghost predicate AllItems(interval: Interval, parts: seq<string>)
  {
    forall p :: p in parts ==> IsItem(interval, p)
  }

  lemma ColumnIsItems(interval: Interval, s: string)
    ensures IsColumn(interval, s) <==> AllItems(interval, Split(s, ','))
  {
    var parts := Split(s, ',');
    if IsColumn(interval, s) {
      var items :| items != [] && Join(items, ',') == s && forall i :: i in items ==> IsItem(interval, i);
      forall i | i in items ensures ',' !in i { ItemIsPlain(interval, i); }
      SplitJoin(items, ',');
    }
    if AllItems(interval, parts) {
      JoinSplit(s, ',');
    }
  }

  lemma ListAccepted(interval: Interval, s: string)
    requires ',' in s
    ensures MakeValidation(interval, s).Ok? <==> AllItems(interval, Split(s, ','))
  {
    if s == "," {
      TwoParts(s, ',', "", "");
      ItemNotEmpty(interval);
      assert "" in Split(s, ',');
    } else {
      CommaUnfolds(interval, s);
      AllAccepted(interval, Split(s, ','), s);
    }
  }

  /** The validator accepts a column exactly when it derives from the grammar. */
  lemma ColumnAccepted(interval: Interval, s: string)
    ensures MakeValidation(interval, s).Ok? <==> IsColumn(interval, s)
  {
    ColumnIsItems(interval, s);
    if ',' in s {
      ListAccepted(interval, s);
    } else {
      ItemAccepted(interval, s);
      assert Split(s, ',') == [s];
    }
  }

  /** A number written without leading zeros is accepted exactly in the range of its column; a
      Sunday can be written 0 but not 7. */
  lemma NumberAccepted(interval: Interval, n: nat)
    requires n < 100
    ensures MakeValidation(interval, Str(n)).Ok? <==> First(interval) <= n <= Last(interval)
    ensures Str(7) == "7" && MakeValidation(Weekday, "7").Err? && MakeValidation(Weekday, "0").Ok?
  {
    OnlyNumber(interval, n);
    assert Str(0) == "0" && Str(7) == "7";
    OnlyNumber(Weekday, 0);
    OnlyNumber(Weekday, 7);
  }

  /** The five columns in their places: minute, hour, day, month, weekday. */
  lemma PlacesOfColumns(columns: seq<string>)
    requires |columns| == 5 && forall p :: p in columns ==> ' ' !in p
    ensures ToInternalValue(Join(columns, ' ')).Ok? <==>
              && MakeValidation(Minute, columns[0]).Ok? && MakeValidation(Hour, columns[1]).Ok?
              && MakeValidation(Day, columns[2]).Ok? && MakeValidation(Month, columns[3]).Ok?
              && MakeValidation(Weekday, columns[4]).Ok?
  {
    var data := Join(columns, ' ');
    SplitJoin(columns, ' ');
    CountIsParts(data, ' ');
    assert Columns(data) == columns;
    FirstFailure(columns);
  }

  lemma FirstFailure(columns: seq<string>)
    requires |columns| == 5
    ensures ValidateFrom(columns, 0).Ok? <==>
              && MakeValidation(Minute, columns[0]).Ok? && MakeValidation(Hour, columns[1]).Ok?
              && MakeValidation(Day, columns[2]).Ok? && MakeValidation(Month, columns[3]).Ok?
              && MakeValidation(Weekday, columns[4]).Ok?
  {
    OneColumn(columns, 4);
    OneColumn(columns, 3);
    OneColumn(columns, 2);
    OneColumn(columns, 1);
    OneColumn(columns, 0);
  }

  lemma OneColumn(columns: seq<string>, i: nat)
    requires |columns| == 5 && i < 5
    ensures ValidateFrom(columns, i).Ok? <==>
              MakeValidation(INTERVALS[i], columns[i]).Ok? && ValidateFrom(columns, i + 1).Ok?
    ensures ValidateFrom(columns, 5).Ok?
  {
  }

  /** The numbers of each column. */
  lemma RangesOfColumns(n: nat)
    requires n < 100
    ensures MakeValidation(Minute, Str(n)).Ok? <==> n <= 59
    ensures MakeValidation(Hour, Str(n)).Ok? <==> n <= 23
    ensures MakeValidation(Day, Str(n)).Ok? <==> 1 <= n <= 31
    ensures MakeValidation(Month, Str(n)).Ok? <==> 1 <= n <= 12
    ensures MakeValidation(Weekday, Str(n)).Ok? <==> n <= 6
  {
    OnlyNumber(Minute, n);
    OnlyNumber(Hour, n);
    OnlyNumber(Day, n);
    OnlyNumber(Month, n);
    OnlyNumber(Weekday, n);
  }

  /** A range is of two numbers of the column, in any order. */
  lemma RangeOfNumbers(interval: Interval, a: nat, b: nat)
    requires a < 100 && b < 100
    ensures MakeValidation(interval, Str(a) + "-" + Str(b)).Ok? <==>
              MakeValidation(interval, Str(a)).Ok? && MakeValidation(interval, Str(b)).Ok?
  {
    var s := Str(a) + "-" + Str(b);
    StrHasDigits(a);
    StrHasDigits(b);
    TwoParts(s, '-', Str(a), Str(b));
    assert s[|Str(a)|] == '-' && |s| > 1;
    DashUnfolds(interval, s);
  }

  /** The steps are digits, and nothing else; otherwise they are complained of. */
  lemma StarWithSteps(interval: Interval, steps: string)
    requires ',' !in steps && '/' !in steps
    ensures MakeValidation(interval, "*/" + steps) ==
              if steps != "" && forall c :: c in steps ==> '0' <= c <= '9' then Ok(())
              else Err(InvalidDelimiter(interval))
  {
    var s := "*/" + steps;
    assert s == "*" + ['/'] + steps && s[1] == '/';
    TwoParts(s, '/', "*", steps);
    StarUnfolds(interval, s);
  }

  lemma StarUnfolds(interval: Interval, s: string)
    requires '/' in s && ',' !in s && s != "/" && |Split(s, '/')| == 2 && Split(s, '/')[0] == "*"
    ensures MakeValidation(interval, s) ==
              if IsDigits(Split(s, '/')[1]) then Ok(()) else Err(InvalidDelimiter(interval))
  {
  }

  /** A list is accepted when its items are. */
  lemma ListOfTwo(interval: Interval, left: string, right: string)
    requires ',' !in left && ',' !in right
    ensures MakeValidation(interval, left + "," + right).Ok? <==>
              MakeValidation(interval, left).Ok? && MakeValidation(interval, right).Ok?
  {
    var s := left + "," + right;
    assert s[|left|] == ',';
    TwoParts(s, ',', left, right);
    ListAccepted(interval, s);
    ItemAccepted(interval, left);
    ItemAccepted(interval, right);
    assert AllItems(interval, [left, right]) <==> IsItem(interval, left) && IsItem(interval, right) by {
      assert left in [left, right] && right in [left, right];
    }
  }

  /** How a number is written: its one or two decimal digits, read back as the number. */
  lemma StrHasDigits(n: nat)
    requires n < 100
    ensures n < 10 ==> |Str(n)| == 1 && Str(n)[0] as int - '0' as int == n
    ensures n >= 10 ==> |Str(n)| == 2 && 10 * (Str(n)[0] as int - '0' as int) + (Str(n)[1] as int - '0' as int) == n
    ensures forall c :: c in Str(n) ==> '0' <= c <= '9'
  {
  }

  lemma OnlyNumber(interval: Interval, n: nat)
    requires n < 100
    ensures MakeValidation(interval, Str(n)).Ok? <==> First(interval) <= n <= Last(interval)
  {
    var s := Str(n);
    assert forall c :: c in s ==> '0' <= c <= '9';
    AtomAccepted(interval, s);
    assert s != "*" by { assert s[0] != '*'; }
    if m :| First(interval) <= m <= Last(interval) && s == Str(m) {
      SameNumber(m, n);
    }
  }

  lemma SameNumber(m: nat, n: nat)
    requires m < 100 && n < 100 && Str(m) == Str(n)
    ensures m == n
  {
    assert |Str(m)| == |Str(n)|;
    assert Str(m)[0] == Str(n)[0];
    if m >= 10 { assert Str(m)[1] == Str(n)[1]; }
  }

  lemma ItemNotEmpty(interval: Interval)
    ensures !IsItem(interval, "")
  {
    if IsItem(interval, "") { ItemIsPlain(interval, ""); }
  }

  // ---- the field ----

  const INTERVALS: seq<Interval> := [Minute, Hour, Day, Month, Weekday]

  function Count(s: string, c: char): nat
  {
    if s == "" then 0 else (if s[0] == c then 1 else 0) + Count(s[1..], c)
  }

  lemma {:induction false} CountIsParts(s: string, c: char)
    ensures |Split(s, c)| == Count(s, c) + 1
    decreases |s|
  {
    var i := Find(s, c);
    CountSkips(s, c, i);
    if i < |s| {
      CountIsParts(s[i + 1..], c);
      assert s[i..][1..] == s[i + 1..];
    }
  }

  lemma {:induction false} CountSkips(s: string, c: char, i: nat)
    requires i <= |s| && c !in s[..i]
    ensures Count(s, c) == Count(s[i..], c)
  {
    if i > 0 {
      assert s[0] in s[..i];
      assert s[1..][..i - 1] == s[..i][1..];
      CountSkips(s[1..], c, i - 1);
      assert s[1..][i - 1..] == s[i..];
    } else {
      assert s[0..] == s;
    }
  }

  /** The columns given, then "*" up to five. */
  function Columns(data: string): (columns: seq<string>)
    requires Count(data, ' ') <= 4
    ensures |columns| == 5
  {
    CountIsParts(data, ' ');
    (Split(data, ' ') + ["*", "*", "*", "*"])[..5]
  }

  /** Any other exception becomes Invalid. */
  function Reported(r: Validation): Validation
  {
    if r == Err(Malformed) then Err(Invalid) else r
  }

  /** The first failure from column i on. */
  function ValidateFrom(columns: seq<string>, i: nat): Validation
    requires |columns| == 5 && i <= 5
    decreases 5 - i
  {
    if i == 5 then Ok(()) else
    var r := Reported(MakeValidation(INTERVALS[i], columns[i]));
    if r.Err? then r else ValidateFrom(columns, i + 1)
  }

  function ToInternalValue(data: string): Result<string, Error>
  {
    if Count(data, ' ') > 4 then Err(ToManyColumns) else
    var columns := Columns(data);
    var r := ValidateFrom(columns, 0);
    if r.Err? then Err(r.error) else Ok(Join(columns, ' '))
  }

  lemma {:induction false} ValidateFromAccepts(columns: seq<string>, i: nat)
    requires |columns| == 5 && i <= 5
    ensures ValidateFrom(columns, i).Ok? <==> forall k :: i <= k < 5 ==> IsColumn(INTERVALS[k], columns[k])
    decreases 5 - i
  {
    if i < 5 {
      ColumnAccepted(INTERVALS[i], columns[i]);
      ValidateFromAccepts(columns, i + 1);
    }
  }

  /** The field accepts at most five columns, each of the grammar of its place; the value is
      these columns with "*" for the missing ones; and it is accepted again, unchanged. */
  lemma FieldAcceptsAndNormalises(data: string)
    ensures ToInternalValue(data).Ok? <==>
              && |Split(data, ' ')| <= 5
              && forall k :: 0 <= k < |Split(data, ' ')| ==> IsColumn(INTERVALS[k], Split(data, ' ')[k])
    ensures |Split(data, ' ')| > 5 ==> ToInternalValue(data) == Err(ToManyColumns)
    ensures ToInternalValue(data).Ok? ==>
              var value := ToInternalValue(data).value;
              && |Split(value, ' ')| == 5
              && (forall k :: 0 <= k < 5 ==>
                    Split(value, ' ')[k] == if k < |Split(data, ' ')| then Split(data, ' ')[k] else "*")
              && ToInternalValue(value) == Ok(value)
  {
    CountIsParts(data, ' ');
    if Count(data, ' ') <= 4 {
      var columns := Columns(data);
      ColumnsArePadded(data);
      ColumnsAccepted(data);
      Renormalised(columns);
    }
  }

  /** Whatever else is raised is reported as one of the errors the field has messages for. */
  lemma NothingElseIsRaised(data: string)
    ensures ToInternalValue(data) != Err(Malformed)
  {
    if Count(data, ' ') <= 4 { NeverMalformed(Columns(data), 0); }
  }

  lemma {:induction false} NeverMalformed(columns: seq<string>, i: nat)
    requires |columns| == 5 && i <= 5
    ensures ValidateFrom(columns, i) != Err(Malformed)
    decreases 5 - i
  {
    if i < 5 { NeverMalformed(columns, i + 1); }
  }

  lemma ColumnsArePadded(data: string)
    requires Count(data, ' ') <= 4
    ensures var parts, columns := Split(data, ' '), Columns(data);
            && |parts| <= 5
            && (forall k :: 0 <= k < 5 ==> columns[k] == if k < |parts| then parts[k] else "*")
            && (forall p :: p in columns ==> ' ' !in p)
  {
    CountIsParts(data, ' ');
    var parts, stars := Split(data, ' '), ["*", "*", "*", "*"];
    var padded := parts + stars;
    assert forall k :: 0 <= k < |padded| ==> padded[k] == if k < |parts| then parts[k] else "*";
    assert Columns(data) == padded[..5];
    assert forall k :: 0 <= k < 5 ==> Columns(data)[k] == padded[k];
    assert forall k :: 0 <= k < |parts| ==> parts[k] in parts;
  }

  lemma StarIsColumn()
    ensures forall interval: Interval :: IsColumn(interval, "*")
  {
    forall interval: Interval ensures IsColumn(interval, "*") { ColumnAccepted(interval, "*"); }
  }

  /** The padded columns are accepted when those given are. */
  lemma ColumnsAccepted(data: string)
    requires Count(data, ' ') <= 4
    ensures ValidateFrom(Columns(data), 0).Ok? <==>
            forall k :: 0 <= k < |Split(data, ' ')| ==> k < 5 && IsColumn(INTERVALS[k], Split(data, ' ')[k])
  {
    var parts, columns := Split(data, ' '), Columns(data);
    ColumnsArePadded(data);
    StarIsColumn();
    ValidateFromAccepts(columns, 0);
    assert forall k :: 0 <= k < |parts| ==> columns[k] == parts[k];
  }

  lemma Renormalised(columns: seq<string>)
    requires |columns| == 5 && forall p :: p in columns ==> ' ' !in p
    ensures Split(Join(columns, ' '), ' ') == columns
    ensures ValidateFrom(columns, 0).Ok? ==> ToInternalValue(Join(columns, ' ')) == Ok(Join(columns, ' '))
  {
    var value := Join(columns, ' ');
    SplitJoin(columns, ' ');
    CountIsParts(value, ' ');
    assert Columns(value) == columns;
  }
}
