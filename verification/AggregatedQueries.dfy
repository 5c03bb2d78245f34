/** Looking up many values with one query (frontend_src/vstutils/AggregatedQueriesExecutor.js
    and fetchPKs in frontend_src/vstutils/fetch-values.ts). */
module AggregatedQueries {
  import opened Common
  import opened Text

  /** An instance, with its filter field as a string. */
  datatype Instance = Instance(key: string, id: int)

  type Promise = nat

  datatype Settlement = Found(instance: Instance) | NotFound(key: string) | Failed(error: string)

  type Answer = Result<seq<Instance>, string>

  // ---- the server ----

  /** The rows whose field is in a comma separated list, as the list filters select them. */
  function Select(table: seq<Instance>, tokens: seq<string>): seq<Instance>
  {
    if table == [] then [] else
    Select(table[..|table| - 1], tokens) + (if table[|table| - 1].key in tokens then [table[|table| - 1]] else [])
  }

  /** The list request with the filter and a limit. */
  function Items(table: seq<Instance>, filterValue: string, limit: nat): seq<Instance>
  {
    var rows := Select(table, Split(filterValue, ','));
    if |rows| <= limit then rows else rows[..limit]
  }

  ghost predicate Unique(table: seq<Instance>)
  {
    forall i, j :: 0 <= i < j < |table| ==> table[i].key != table[j].key
  }

  ghost predicate Distinct(keys: seq<string>)
  {
    forall i, j :: 0 <= i < j < |keys| ==> keys[i] != keys[j]
  }

  // ---- one aggregated query ----

  /** What a promise waiting for a key gets: the first instance with it. */
  function Outcome(instances: seq<Instance>, key: string): (r: Settlement)
    ensures r.Found? ==> r.instance in instances && r.instance.key == key
    ensures r.NotFound? ==> r.key == key && forall x :: x in instances ==> x.key != key
    ensures !r.Failed?
  {
    if instances == [] then NotFound(key)
    else if instances[0].key == key then Found(instances[0])
    else Outcome(instances[1..], key)
  }

  /** The instance with a key that there is in the table, whatever characters the key has. */
  function LookUp(table: seq<Instance>, key: string): Settlement
  {
    Outcome(table, key)
  }

  /** What the query for all keys gives for one of them. */
  function Aggregated(table: seq<Instance>, keys: seq<string>, key: string): Settlement
    requires keys != []
  {
    Outcome(Items(table, Join(keys, ','), |keys|), key)
  }

  lemma {:induction false} SelectHas(table: seq<Instance>, tokens: seq<string>, x: Instance)
    ensures x in Select(table, tokens) <==> x in table && x.key in tokens
    decreases |table|
  {
    if table != [] {
      SelectHas(table[..|table| - 1], tokens, x);
      assert table == table[..|table| - 1] + [table[|table| - 1]];
    }
  }

  lemma {:induction false} SelectIsUnique(table: seq<Instance>, tokens: seq<string>)
    requires Unique(table)
    ensures Unique(Select(table, tokens))
    decreases |table|
  {
    if table != [] {
      var rest, last := table[..|table| - 1], table[|table| - 1];
      SelectIsUnique(rest, tokens);
      forall i | 0 <= i < |Select(rest, tokens)| ensures Select(rest, tokens)[i].key != last.key {
        SelectHas(rest, tokens, Select(rest, tokens)[i]);
        var j :| 0 <= j < |rest| && rest[j] == Select(rest, tokens)[i];
        assert table[j].key != table[|table| - 1].key;
      }
    }
  }

  /** No more rows than tokens, when the field is unique. */
  lemma {:induction false} UniqueFitsLimit(rows: seq<Instance>, tokens: set<string>)
    requires Unique(rows) && forall x :: x in rows ==> x.key in tokens
    ensures |rows| <= |tokens|
    decreases |rows|
  {
    if rows != [] {
      var rest, last := rows[..|rows| - 1], rows[|rows| - 1];
      forall x | x in rest ensures x.key in tokens - {last.key} {
        var j :| 0 <= j < |rest| && rest[j] == x;
        assert rows[j].key != rows[|rows| - 1].key;
      }
      UniqueFitsLimit(rest, tokens - {last.key});
    }
  }

  lemma {:induction false} ElementsAreFew(keys: seq<string>)
    ensures |set k | k in keys| <= |keys|
    decreases |keys|
  {
    if keys != [] {
      ElementsAreFew(keys[1..]);
      assert (set k | k in keys) == (set k | k in keys[1..]) + {keys[0]};
    }
  }

  lemma {:induction false} OutcomeOfUnique(instances: seq<Instance>, x: Instance)
    requires Unique(instances) && x in instances
    ensures Outcome(instances, x.key) == Found(x)
    decreases |instances|
  {
    if instances[0] != x {
      var j :| 0 <= j < |instances| && instances[j] == x;
      assert instances[0].key != instances[j].key;
      assert instances[1..][j - 1] == x;
      forall a, b | 0 <= a < b < |instances[1..]| ensures instances[1..][a].key != instances[1..][b].key {
        assert instances[a + 1].key != instances[b + 1].key;
      }
      OutcomeOfUnique(instances[1..], x);
    }
  }

  /** When no key contains a comma, the rows selected are those with the keys, all of them. */
  lemma ItemsOfPlainKeys(table: seq<Instance>, keys: seq<string>)
    requires Unique(table) && keys != [] && forall k :: k in keys ==> ',' !in k
    ensures Items(table, Join(keys, ','), |keys|) == Select(table, keys)
  {
    SplitJoin(keys, ',');
    var rows := Select(table, keys);
    SelectIsUnique(table, keys);
    forall x | x in rows ensures x.key in (set k | k in keys) { SelectHas(table, keys, x); }
    UniqueFitsLimit(rows, set k | k in keys);
    ElementsAreFew(keys);
  }

  lemma PlainKeysAgree(table: seq<Instance>, keys: seq<string>, key: string)
    requires Unique(table) && key in keys && forall k :: k in keys ==> ',' !in k
    ensures Aggregated(table, keys, key) == LookUp(table, key)
  {
    ItemsOfPlainKeys(table, keys);
    var rows := Select(table, keys);
    SelectIsUnique(table, keys);
    var r := LookUp(table, key);
    if r.Found? {
      SelectHas(table, keys, r.instance);
      OutcomeOfUnique(rows, r.instance);
    } else {
      var o := Outcome(rows, key);
      if o.Found? { SelectHas(table, keys, o.instance); }
    }
  }

  /** One query for all keys finds all there is, on every table in which the field is unique, if
      and only if no key contains a comma: such a key is split by the server and never found,
      even when it is there. */
  lemma AggregatedFindsAllIff(keys: seq<string>)
    requires keys != []
    ensures (forall table, key :: Unique(table) && key in keys ==>
               Aggregated(table, keys, key) == LookUp(table, key)) <==>
            (forall k :: k in keys ==> ',' !in k)
  {
    if forall k :: k in keys ==> ',' !in k {
      forall table, key | Unique(table) && key in keys ensures Aggregated(table, keys, key) == LookUp(table, key) {
        PlainKeysAgree(table, keys, key);
      }
    } else {
      var k :| k in keys && ',' in k;
      var table := [Instance(k, 0)];
      CommaKeyIsMissed(table, keys, k);
      assert Unique(table) && LookUp(table, k) == Found(table[0]);
    }
  }

  lemma CommaKeyIsMissed(table: seq<Instance>, keys: seq<string>, k: string)
    requires keys != [] && ',' in k
    ensures Aggregated(table, keys, k) == NotFound(k)
  {
    var items := Items(table, Join(keys, ','), |keys|);
    forall x | x in items ensures x.key != k {
      SelectHas(table, TokensOf(keys), x);
      assert x in Select(table, TokensOf(keys));
    }
  }

  // ---- against single queries ----

  /** What the server takes the joined keys for. */
  function TokensOf(keys: seq<string>): (tokens: seq<string>)
    requires keys != []
    ensures forall t :: t in tokens ==> ',' !in t
  {
    Split(Join(keys, ','), ',')
  }

  function Distincts(keys: seq<string>): set<string>
  {
    set k | k in keys
  }

  /** A key without a comma is one of the tokens. */
  lemma {:induction false} PlainKeyIsToken(keys: seq<string>, k: string)
    requires k in keys && ',' !in k
    ensures k in TokensOf(keys)
    decreases |keys|
  {
    if |keys| == 1 {
      assert Split(k, ',') == [k];
    } else {
      SplitConcat(keys[0], Join(keys[1..], ','), ',');
      assert Join(keys, ',') == keys[0] + [','] + Join(keys[1..], ',');
      if k != keys[0] {
        assert k in keys[1..];
        PlainKeyIsToken(keys[1..], k);
      } else {
        assert Split(k, ',') == [k];
      }
    }
  }

  /** With no more tokens than keys the limit cuts nothing off. */
  lemma FewTokensAllItems(table: seq<Instance>, keys: seq<string>)
    requires Unique(table) && keys != [] && |Distincts(TokensOf(keys))| <= |keys|
    ensures Items(table, Join(keys, ','), |keys|) == Select(table, TokensOf(keys))
  {
    var tokens := TokensOf(keys);
    var rows := Select(table, tokens);
    SelectIsUnique(table, tokens);
    forall x | x in rows ensures x.key in Distincts(tokens) { SelectHas(table, tokens, x); }
    UniqueFitsLimit(rows, Distincts(tokens));
  }

  lemma SelectedAgrees(table: seq<Instance>, tokens: seq<string>, key: string)
    requires Unique(table) && key in tokens
    ensures Outcome(Select(table, tokens), key) == LookUp(table, key)
  {
    SelectIsUnique(table, tokens);
    var r, o := LookUp(table, key), Outcome(Select(table, tokens), key);
    if r.Found? {
      SelectHas(table, tokens, r.instance);
      OutcomeOfUnique(Select(table, tokens), r.instance);
    } else if o.Found? {
      SelectHas(table, tokens, o.instance);
    }
  }

  /** A query for one key without a comma finds it if it is there. */
  lemma SingleFinds(table: seq<Instance>, key: string)
    requires Unique(table) && ',' !in key
    ensures Aggregated(table, [key], key) == LookUp(table, key)
  {
    PlainKeysAgree(table, [key], key);
  }

  /** No key can be starved: all are split anyway, or the limit is enough for all tokens. */
  predicate NoneStarved(keys: seq<string>)
    requires keys != []
  {
    (forall k :: k in keys ==> ',' in k) || |Distincts(TokensOf(keys))| <= |keys|
  }

  /** One row for each of some keys. */
  ghost function RowFor(keys: set<string>): (table: seq<Instance>)
    ensures |table| == |keys| && Unique(table)
    ensures forall x :: x in table ==> x.key in keys
  {
    if keys == {} then [] else
    var k :| k in keys;
    var rest := RowFor(keys - {k});
    assert forall i :: 0 <= i < |rest| ==> rest[i] in rest;
    rest + [Instance(k, 0)]
  }

  lemma {:induction false} SelectsAll(table: seq<Instance>, tokens: seq<string>)
    requires forall x :: x in table ==> x.key in tokens
    ensures Select(table, tokens) == table
    decreases |table|
  {
    if table != [] {
      var n := |table| - 1;
      assert table[n] in table;
      SelectsAll(table[..n], tokens);
      assert table == table[..n] + [table[n]];
    }
  }

  /** The rows of all other tokens, and last the wanted one. */
  ghost function StarvingTable(keys: seq<string>, k: string): seq<Instance>
    requires keys != []
  {
    RowFor(Distincts(TokensOf(keys)) - {k}) + [Instance(k, 0)]
  }

  /** Rows of which all are selected and the last is beyond the limit. */
  lemma LastIsCut(others: seq<Instance>, k: string, tokens: seq<string>, limit: nat)
    requires Unique(others) && forall x :: x in others ==> x.key in tokens && x.key != k
    requires k in tokens && limit <= |others|
    ensures var table := others + [Instance(k, 0)];
            && Unique(table) && Instance(k, 0) in table
            && Select(table, tokens) == table
            && forall x :: x in table[..limit] ==> x.key != k
  {
    var table := others + [Instance(k, 0)];
    assert forall i :: 0 <= i < |others| ==> others[i] in others;
    assert table[|others|] == Instance(k, 0);
    SelectsAll(table, tokens);
    assert table[..limit] == others[..limit];
  }

  lemma StarvingTableIsCut(keys: seq<string>, k: string)
    requires k in keys && ',' !in k && |Distincts(TokensOf(keys))| > |keys|
    ensures var table := StarvingTable(keys, k);
            && Unique(table) && |table| > |keys| && Instance(k, 0) in table
            && Select(table, TokensOf(keys)) == table
            && forall x :: x in table[..|keys|] ==> x.key != k
  {
    PlainKeyIsToken(keys, k);
    LastIsCut(RowFor(Distincts(TokensOf(keys)) - {k}), k, TokensOf(keys), |keys|);
  }

  /** More tokens than keys: on that table a key without a comma is cut off by the limit. */
  lemma StarvedKey(keys: seq<string>, k: string)
    requires k in keys && ',' !in k && |Distincts(TokensOf(keys))| > |keys|
    ensures var table := StarvingTable(keys, k);
            && Unique(table)
            && Aggregated(table, keys, k) == NotFound(k)
            && Aggregated(table, [k], k) == Found(Instance(k, 0))
  {
    var table := StarvingTable(keys, k);
    StarvingTableIsCut(keys, k);
    SingleFinds(table, k);
    OutcomeOfUnique(table, Instance(k, 0));
  }

  /** One query for all keys answers each like the query for that key alone, on every table in
      which the field is unique, if and only if every key contains a comma or there are no more
      different tokens than keys: otherwise the limit may cut off a key that would have been
      found. */
  lemma AggregatedEqualsSingleIff(keys: seq<string>)
    requires keys != []
    ensures (forall table, key :: Unique(table) && key in keys ==>
               Aggregated(table, keys, key) == Aggregated(table, [key], key)) <==>
            NoneStarved(keys)
  {
    if NoneStarved(keys) {
      forall table, key | Unique(table) && key in keys
        ensures Aggregated(table, keys, key) == Aggregated(table, [key], key)
      {
        SameAsSingle(table, keys, key);
      }
    } else {
      var k :| k in keys && ',' !in k;
      StarvedKey(keys, k);
      var table := StarvingTable(keys, k);
      assert Unique(table) && Aggregated(table, keys, k) != Aggregated(table, [k], k);
    }
  }

  lemma SameAsSingle(table: seq<Instance>, keys: seq<string>, key: string)
    requires Unique(table) && key in keys && NoneStarved(keys)
    ensures Aggregated(table, keys, key) == Aggregated(table, [key], key)
  {
    if ',' in key {
      CommaKeyIsMissed(table, keys, key);
      CommaKeyIsMissed(table, [key], key);
    } else {
      FewTokensAllItems(table, keys);
      PlainKeyIsToken(keys, key);
      SelectedAgrees(table, TokensOf(keys), key);
      SingleFinds(table, key);
    }
  }

  lemma JoinOfTwo(a: string, b: string)
    ensures Join([a, b], ',') == a + [','] + b
  {
    assert [a, b][1..] == [b];
  }

  lemma ExampleTokens(a: string, b: string, c: string)
    requires ',' !in a && ',' !in b && ',' !in c
    ensures TokensOf([a + [','] + b, c]) == [a, b, c]
  {
    JoinOfTwo(a + [','] + b, c);
    SplitConcat(a + [','] + b, c, ',');
    SplitConcat(a, b, ',');
    assert [a] + [b] + [c] == [a, b, c];
  }

  /** A key with a comma and one without are looked up together: the server takes them for three
      keys and answers two rows, and the second, which has no comma, is not found. */
  lemma StarvedExample(a: string, b: string, c: string)
    requires ',' !in a && ',' !in b && ',' !in c && a != b && c != a && c != b
    ensures var table := [Instance(a, 1), Instance(b, 2), Instance(c, 3)];
            && Aggregated(table, [a + [','] + b, c], c) == NotFound(c)
            && Aggregated(table, [c], c) == Found(Instance(c, 3))
  {
    var table := [Instance(a, 1), Instance(b, 2), Instance(c, 3)];
    ExampleTokens(a, b, c);
    SelectsAll(table, [a, b, c]);
    TwoRows(table, c);
    SingleFinds(table, c);
    OutcomeOfUnique(table, table[2]);
  }

  lemma TwoRows(table: seq<Instance>, c: string)
    requires |table| == 3 && table[0].key != c && table[1].key != c
    ensures Outcome(table[..2], c) == NotFound(c)
  {
    assert forall x :: x in table[..2] ==> x == table[0] || x == table[1];
  }

  // ---- the executor ----

  datatype Place = Queued | Flying(id: nat) | Done

  /** The keys asked for, in the order of their first query, with the promises waiting. */
  datatype Batch = Batch(keys: seq<string>, waiting: map<string, seq<Promise>>)

  ghost predicate WellFormed(b: Batch)
  {
    && (forall k :: k in b.keys <==> k in b.waiting)
    && Distinct(b.keys)
  }

  ghost predicate Waits(b: Batch, p: Promise, key: string)
  {
    key in b.waiting && p in b.waiting[key]
  }

  /** For every promise made: the key it asked for, and where it is now. */
  datatype Ledger = Ledger(asked: map<Promise, string>, place: map<Promise, Place>)

  ghost predicate Sits(l: Ledger, p: Promise, key: string, where: Place)
  {
    p in l.place && p in l.asked && l.place[p] == where && l.asked[p] == key
  }

  ghost predicate Complete(l: Ledger, promises: nat)
  {
    l.asked.Keys == l.place.Keys && forall p: Promise :: p in l.place <==> p < promises
  }

  /** The batch holds just the promises the ledger has at this place, under their keys. */
  ghost predicate Tracks(b: Batch, l: Ledger, where: Place)
    requires l.asked.Keys == l.place.Keys
  {
    WellFormed(b) && forall p: Promise, k :: Waits(b, p, k) <==> Sits(l, p, k, where)
  }

  function Asked(l: Ledger, p: Promise, key: string): Ledger
  {
    Ledger(l.asked[p := key], l.place[p := Queued])
  }

  /** All promises at one place move to another. */
  function Moved(l: Ledger, from: Place, to: Place): Ledger
  {
    l.(place := map p | p in l.place :: if l.place[p] == from then to else l.place[p])
  }

  function Enqueued(b: Batch, p: Promise, key: string): Batch
  {
    Batch(if key in b.waiting then b.keys else b.keys + [key],
          b.waiting[key := (if key in b.waiting then b.waiting[key] else []) + [p]])
  }

  lemma EnqueuedTracks(b: Batch, l: Ledger, p: Promise, key: string)
    requires l.asked.Keys == l.place.Keys && Tracks(b, l, Queued) && p !in l.place
    ensures Tracks(Enqueued(b, p, key), Asked(l, p, key), Queued)
  {
    var c, m := Enqueued(b, p, key), Asked(l, p, key);
    forall q: Promise, k ensures Waits(c, q, k) <==> Sits(m, q, k, Queued) {
      assert Waits(b, q, k) <==> Sits(l, q, k, Queued);
    }
  }

  lemma AskingElsewhere(b: Batch, l: Ledger, p: Promise, key: string, where: Place)
    requires l.asked.Keys == l.place.Keys && Tracks(b, l, where) && p !in l.place && !where.Queued?
    ensures Tracks(b, Asked(l, p, key), where)
  {
    forall q: Promise, k ensures Waits(b, q, k) <==> Sits(Asked(l, p, key), q, k, where) {
      assert Waits(b, q, k) <==> Sits(l, q, k, where);
    }
  }

  lemma MovedTracks(b: Batch, l: Ledger, from: Place, to: Place, where: Place)
    requires l.asked.Keys == l.place.Keys && from != to && where != to
    requires Tracks(b, l, where)
    ensures where != from ==> Tracks(b, Moved(l, from, to), where)
    ensures where == from && NoneAt(l, to) ==> Tracks(b, Moved(l, from, to), to)
  {
    var m := Moved(l, from, to);
    if where != from {
      forall q: Promise, k ensures Waits(b, q, k) <==> Sits(m, q, k, where) {
        assert Waits(b, q, k) <==> Sits(l, q, k, where);
      }
    } else if NoneAt(l, to) {
      forall q: Promise, k ensures Waits(b, q, k) <==> Sits(m, q, k, to) {
        assert Waits(b, q, k) <==> Sits(l, q, k, from);
      }
    }
  }

  /** What the promises of a batch get when its items come, or fail to. */
  function Share(answer: Answer, key: string): Settlement
  {
    match answer
    case Ok(instances) => Outcome(instances, key)
    case Err(e) => Failed(e)
  }

  /** The state of an executor: the next batch, the batches whose items() is awaited, and what
      has been settled; and, to say where every promise is, the ledger. */
  datatype Books = Books(queries: Batch, flights: map<nat, Batch>, executions: nat, promises: nat,
                         settled: map<Promise, Settlement>, ledger: Ledger)

  ghost predicate Sound(b: Books)
  {
    && Complete(b.ledger, b.promises)
    && Tracks(b.queries, b.ledger, Queued)
    && FlightsTracked(b)
    && FlyingAreInFlights(b)
    && SettledAreDone(b)
  }

  ghost predicate FlightsTracked(b: Books)
    requires b.ledger.asked.Keys == b.ledger.place.Keys
  {
    forall id :: id in b.flights ==> id < b.executions && Tracks(b.flights[id], b.ledger, Flying(id))
  }

  ghost predicate FlyingAreInFlights(b: Books)
  {
    forall p :: p in b.ledger.place && b.ledger.place[p].Flying? ==> b.ledger.place[p].id in b.flights
  }

  ghost predicate SettledAreDone(b: Books)
  {
    forall p: Promise :: p in b.settled <==> p in b.ledger.place && b.ledger.place[p] == Done
  }

  const NO_QUERIES := Batch([], map[])

  function Ask(b: Books, key: string): Books
  {
    b.(queries := Enqueued(b.queries, b.promises, key), promises := b.promises + 1,
      ledger := Asked(b.ledger, b.promises, key))
  }

  function Begin(b: Books): Books
  {
    if b.queries.keys == [] then b else
    b.(queries := NO_QUERIES, flights := b.flights[b.executions := b.queries], executions := b.executions + 1,
       ledger := Moved(b.ledger, Queued, Flying(b.executions)))
  }

  /** Each promise of the batch gets the share of its key; others keep what they have. */
  function End(b: Books, id: nat, answer: Answer): Books
    requires id in b.flights && b.ledger.asked.Keys == b.ledger.place.Keys
  {
    b.(flights := b.flights - {id},
       settled := map p | p in b.ledger.place && (p in b.settled || b.ledger.place[p] == Flying(id)) ::
         if p in b.settled then b.settled[p] else Share(answer, b.ledger.asked[p]),
       ledger := Moved(b.ledger, Flying(id), Done))
  }

  lemma AskKeepsSound(b: Books, key: string)
    requires Sound(b)
    ensures Sound(Ask(b, key))
  {
    EnqueuedTracks(b.queries, b.ledger, b.promises, key);
    AskKeepsFlights(b, key);
    AskKeepsPlaces(b, key);
  }

  lemma AskKeepsPlaces(b: Books, key: string)
    requires Complete(b.ledger, b.promises) && FlyingAreInFlights(b) && SettledAreDone(b)
    ensures Complete(Ask(b, key).ledger, Ask(b, key).promises)
    ensures FlyingAreInFlights(Ask(b, key)) && SettledAreDone(Ask(b, key))
  {
    assert b.promises !in b.ledger.place;
  }

  lemma AskKeepsFlights(b: Books, key: string)
    requires Complete(b.ledger, b.promises) && FlightsTracked(b)
    ensures FlightsTracked(Ask(b, key))
  {
    forall id | id in b.flights ensures Tracks(b.flights[id], Ask(b, key).ledger, Flying(id)) {
      AskingElsewhere(b.flights[id], b.ledger, b.promises, key, Flying(id));
    }
  }

  lemma BeginKeepsSound(b: Books)
    requires Sound(b)
    ensures Sound(Begin(b))
  {
    if b.queries.keys != [] {
      assert NoneAt(b.ledger, Flying(b.executions));
      MovedTracks(b.queries, b.ledger, Queued, Flying(b.executions), Queued);
      BeginKeepsFlights(b);
      NothingQueued(b.ledger, Flying(b.executions));
    }
  }

  ghost predicate NoneAt(l: Ledger, where: Place)
  {
    forall p :: p in l.place ==> l.place[p] != where
  }

  lemma NothingQueued(l: Ledger, to: Place)
    requires l.asked.Keys == l.place.Keys && to != Queued
    ensures Tracks(NO_QUERIES, Moved(l, Queued, to), Queued)
  {
    forall p: Promise, k ensures Waits(NO_QUERIES, p, k) <==> Sits(Moved(l, Queued, to), p, k, Queued) {}
  }

  lemma BeginKeepsFlights(b: Books)
    requires b.ledger.asked.Keys == b.ledger.place.Keys && FlightsTracked(b) && b.queries.keys != []
    requires Tracks(b.queries, Moved(b.ledger, Queued, Flying(b.executions)), Flying(b.executions))
    ensures FlightsTracked(Begin(b))
  {
    forall id | id in b.flights ensures Tracks(b.flights[id], Begin(b).ledger, Flying(id)) {
      MovedTracks(b.flights[id], b.ledger, Queued, Flying(b.executions), Flying(id));
    }
  }

  lemma EndKeepsSound(b: Books, id: nat, answer: Answer)
    requires Sound(b) && id in b.flights
    ensures Sound(End(b, id, answer))
  {
    MovedTracks(b.queries, b.ledger, Flying(id), Done, Queued);
    EndKeepsFlights(b, id, answer);
  }

  /** What a promise of the batch gets when its items come, or fail to: the instance with its key if
      one came, "not found" with that key if none did, or the error. */
  lemma EndSettles(b: Books, id: nat, answer: Answer, p: Promise)
    requires Sound(b) && id in b.flights && p in b.ledger.place && b.ledger.place[p] == Flying(id)
    ensures var key, settled := b.ledger.asked[p], End(b, id, answer).settled;
            && p in settled
            && (answer.Err? ==> settled[p] == Failed(answer.error))
            && (answer.Ok? && (forall x :: x in answer.value ==> x.key != key) ==> settled[p] == NotFound(key))
            && (answer.Ok? && (exists x :: x in answer.value && x.key == key) ==>
                  settled[p].Found? && settled[p].instance in answer.value && settled[p].instance.key == key)
  {
    assert p !in b.settled;
  }

  lemma EndKeepsFlights(b: Books, id: nat, answer: Answer)
    requires b.ledger.asked.Keys == b.ledger.place.Keys && FlightsTracked(b) && id in b.flights
    ensures FlightsTracked(End(b, id, answer))
  {
    forall f | f in b.flights && f != id ensures Tracks(b.flights[f], End(b, id, answer).ledger, Flying(f)) {
      MovedTracks(b.flights[f], b.ledger, Flying(id), Done, Flying(f));
    }
  }

  lemma {:induction false} OutcomeIsFirst(instances: seq<Instance>, i: nat)
    requires i < |instances| && forall j :: 0 <= j < i ==> instances[j].key != instances[i].key
    ensures Outcome(instances, instances[i].key) == Found(instances[i])
    decreases |instances|
  {
    if i > 0 {
      assert instances[1..][i - 1] == instances[i];
      assert forall j :: 0 <= j < i - 1 ==> instances[1..][j] == instances[j + 1];
      OutcomeIsFirst(instances[1..], i - 1);
    }
  }

  /** A batch whose items() is awaited: its promises are those in flight with it. */
  ghost predicate Awaited(b: Books, id: nat)
  {
    && b.ledger.asked.Keys == b.ledger.place.Keys
    && id in b.flights && Tracks(b.flights[id], b.ledger, Flying(id))
    && SettledAreDone(b)
  }

  /** Settling a batch key by key: done are the promises of the keys not remaining. */
  ghost predicate SettledSoFar(b: Books, id: nat, answer: Answer, remaining: map<string, seq<Promise>>,
                               settled: map<Promise, Settlement>)
    requires b.ledger.asked.Keys == b.ledger.place.Keys && id in b.flights
  {
    && (forall k :: k in remaining ==> k in b.flights[id].waiting && remaining[k] == b.flights[id].waiting[k])
    && forall p: Promise ::
         && (p in settled <==> p in b.settled || IsServed(b.ledger, id, remaining, p))
         && (p in settled ==> settled[p] == if p in b.settled then b.settled[p] else Share(answer, b.ledger.asked[p]))
  }

  /** The promise flies with the batch, and its key does not remain. */
  ghost predicate IsServed(l: Ledger, id: nat, remaining: map<string, seq<Promise>>, p: Promise)
    requires l.asked.Keys == l.place.Keys
  {
    p in l.place && l.place[p] == Flying(id) && l.asked[p] !in remaining
  }

  lemma SettledAll(b: Books, id: nat, answer: Answer, settled: map<Promise, Settlement>)
    requires Awaited(b, id)
    requires SettledSoFar(b, id, answer, map[], settled)
    ensures settled == End(b, id, answer).settled
  {
  }

  lemma SettledOneMore(b: Books, id: nat, answer: Answer, remaining: map<string, seq<Promise>>,
                       settled: map<Promise, Settlement>, key: string, after: map<Promise, Settlement>)
    requires Awaited(b, id) && key in remaining
    requires SettledSoFar(b, id, answer, remaining, settled)
    requires forall p: Promise ::
               && (p in after <==> p in settled || p in remaining[key])
               && (p in after ==> after[p] == if p in settled then settled[p] else Share(answer, key))
    ensures SettledSoFar(b, id, answer, remaining - {key}, after)
  {
    var batch := b.flights[id];
    forall p: Promise
      ensures p in after <==> p in b.settled || IsServed(b.ledger, id, remaining - {key}, p)
      ensures p in after ==> after[p] == if p in b.settled then b.settled[p] else Share(answer, b.ledger.asked[p])
    {
      assert Waits(batch, p, key) <==> Sits(b.ledger, p, key, Flying(id));
    }
  }

  class AggregatedQueriesExecutor {
    var queries: Batch
    var flights: map<nat, Batch>
    var executions: nat
    var promises: nat
    var settled: map<Promise, Settlement>
    ghost var ledger: Ledger

    ghost function Now(): Books
      reads this
    {
      Books(queries, flights, executions, promises, settled, ledger)
    }

    constructor ()
      ensures Sound(Now()) && Now() == Books(NO_QUERIES, map[], 0, 0, map[], Ledger(map[], map[]))
    {
      queries := NO_QUERIES;
      flights, executions, promises, settled := map[], 0, 0, map[];
      ledger := Ledger(map[], map[]);
    }

    method Query(filterFieldValue: string) returns (promise: Promise)
      requires Sound(Now())
      modifies this
      ensures Now() == Ask(old(Now()), filterFieldValue) && Sound(Now())
      ensures promise == old(promises)
    {
      AskKeepsSound(Now(), filterFieldValue);
      promise := promises;
      promises := promises + 1;
      if filterFieldValue !in queries.waiting {
        queries := Batch(queries.keys + [filterFieldValue], queries.waiting[filterFieldValue := []]);
      }
      var waiting := queries.waiting[filterFieldValue] + [promise];
      queries := queries.(waiting := queries.waiting[filterFieldValue := waiting]);
      assert queries == Enqueued(old(queries), promise, filterFieldValue);
      ledger := Asked(ledger, promise, filterFieldValue);
    }

    /** execute up to its await: nothing to do, or one request with all keys asked so far.
        Values asked for from now on wait for the next execution. */
    method Execute() returns (request: Option<(nat, string, nat)>)
      requires Sound(Now())
      modifies this
      ensures Now() == Begin(old(Now())) && Sound(Now())
      ensures request == if old(queries).keys == [] then None
                         else Some((old(executions), Join(old(queries).keys, ','), |old(queries).keys|))
    {
      BeginKeepsSound(Now());
      if queries.keys == [] {
        return None;
      }
      request := Some((executions, Join(queries.keys, ','), |queries.keys|));
      flights := flights[executions := queries];
      ledger := Moved(ledger, Queued, Flying(executions));
      queries := NO_QUERIES;
      executions := executions + 1;
    }

    method SettleAll(waiting: seq<Promise>, s: Settlement)
      modifies this`settled
      ensures forall p: Promise ::
                && (p in settled <==> p in old(settled) || p in waiting)
                && (p in settled ==> settled[p] == if p in old(settled) then old(settled)[p] else s)
    {
      for i := 0 to |waiting|
        invariant forall p: Promise ::
                    && (p in settled <==> p in old(settled) || p in waiting[..i])
                    && (p in settled ==> settled[p] == if p in old(settled) then old(settled)[p] else s)
      {
        assert waiting[..i + 1] == waiting[..i] + [waiting[i]];
        if waiting[i] !in settled {
          settled := settled[waiting[i] := s];
        }
      }
      assert waiting[..|waiting|] == waiting;
    }

    /** Reject or resolve all promises of the keys that remain. */
    method SettleRemaining(remaining: map<string, seq<Promise>>, answer: Answer, ghost before: Books, id: nat)
      requires Awaited(before, id) && SettledSoFar(before, id, answer, remaining, settled)
      requires forall k :: k in remaining ==> !Share(answer, k).Found?
      modifies this`settled
      ensures SettledSoFar(before, id, answer, map[], settled)
    {
      var left := remaining;
      while left != map[]
        invariant SettledSoFar(before, id, answer, left, settled)
        invariant forall k :: k in left ==> !Share(answer, k).Found?
        decreases |left|
      {
        var key :| key in left;
        ghost var was := settled;
        SettleAll(left[key], if answer.Err? then Failed(answer.error) else NotFound(key));
        SettledOneMore(before, id, answer, left, was, key, settled);
        assert left == (left - {key})[key := left[key]];
        left := left - {key};
      }
    }

    /** Resolve the promises of the keys that came. */
    method SettleFound(all: map<string, seq<Promise>>, instances: seq<Instance>, ghost before: Books, id: nat)
      returns (waiting: map<string, seq<Promise>>)
      requires Awaited(before, id) && SettledSoFar(before, id, Ok(instances), all, settled)
      modifies this`settled
      ensures SettledSoFar(before, id, Ok(instances), waiting, settled)
      ensures forall k :: k in waiting ==> !Share(Ok(instances), k).Found?
    {
      waiting := all;
      for i := 0 to |instances|
        invariant SettledSoFar(before, id, Ok(instances), waiting, settled)
        invariant forall k, j :: k in waiting && 0 <= j < i ==> instances[j].key != k
      {
        var key := instances[i].key;
        if key in waiting {
          ghost var was := settled;
          OutcomeIsFirst(instances, i);
          SettleAll(waiting[key], Found(instances[i]));
          SettledOneMore(before, id, Ok(instances), waiting, was, key, settled);
          waiting := waiting - {key};
        }
      }
    }

    /** execute after its await. */
    method Finish(id: nat, answer: Answer)
      requires Sound(Now()) && id in flights
      modifies this
      ensures Now() == End(old(Now()), id, answer) && Sound(Now())
    {
      ghost var before := Now();
      EndKeepsSound(before, id, answer);
      NothingSettledYet(before, id, answer);
      var waiting := flights[id].waiting;
      if answer.Ok? {
        waiting := SettleFound(waiting, answer.value, before, id);
      }
      SettleRemaining(waiting, answer, before, id);
      SettledAll(before, id, answer, settled);
      flights := flights - {id};
      ledger := Moved(ledger, Flying(id), Done);
    }
  }

  lemma NothingSettledYet(b: Books, id: nat, answer: Answer)
    requires Awaited(b, id)
    ensures SettledSoFar(b, id, answer, b.flights[id].waiting, b.settled)
  {
    forall p: Promise | p in b.ledger.place && b.ledger.place[p] == Flying(id)
      ensures b.ledger.asked[p] in b.flights[id].waiting
    {
      assert Sits(b.ledger, p, b.ledger.asked[p], Flying(id));
      assert Waits(b.flights[id], p, b.ledger.asked[p]);
    }
  }

  // ---- fetchPKs ----

  /** A value of a relation field: a number or a string (here as String gives it), or anything
      else, which is passed through. */
  datatype Value = Key(text: string) | Other(id: int)

  datatype Fetched = Model(instance: Instance) | Placeholder(text: string) | Untouched(value: Value)

  /** Any rejection becomes a "not found" instance carrying the value itself. */
  function Caught(text: string, s: Settlement): Fetched
  {
    match s
    case Found(x) => Model(x)
    case _ => Placeholder(text)
  }

  /** The keys queried, in order, without repetitions. */
  function KeysOf(values: seq<Value>): (keys: seq<string>)
    ensures forall k :: k in keys <==> Key(k) in values
    ensures Distinct(keys)
  {
    if values == [] then [] else
    var rest := KeysOf(values[..|values| - 1]);
    var last := values[|values| - 1];
    assert values == values[..|values| - 1] + [last];
    if last.Key? && last.text !in rest then rest + [last.text] else rest
  }

  /** The answer to the one query, if there is anything to ask. */
  function AnswerFor(keys: seq<string>, table: seq<Instance>, failure: Option<string>): Answer
  {
    if keys == [] then Ok([])
    else if failure.Some? then Err(failure.value)
    else Ok(Items(table, Join(keys, ','), |keys|))
  }

  /** What position i gets when the one query for all keys was answered. */
  function FetchedAt(values: seq<Value>, i: nat, answer: Answer): Fetched
    requires i < |values|
  {
    match values[i]
    case Other(_) => Untouched(values[i])
    case Key(text) => Caught(text, Share(answer, text))
  }

  /** Looking many values up at once gives at every position what there is: the instance, the
      placeholder, or the value itself; when no key contains a comma. */
  lemma FetchedLikeOneByOne(values: seq<Value>, table: seq<Instance>, i: nat)
    requires i < |values| && Unique(table)
    requires forall v :: v in values && v.Key? ==> ',' !in v.text
    ensures var got := FetchedAt(values, i, AnswerFor(KeysOf(values), table, None));
            && (values[i].Other? ==> got == Untouched(values[i]))
            && (values[i].Key? && (exists x :: x in table && x.key == values[i].text) ==>
                  got.Model? && got.instance in table && got.instance.key == values[i].text)
            && (values[i].Key? && (forall x :: x in table ==> x.key != values[i].text) ==>
                  got == Placeholder(values[i].text))
  {
    if values[i].Key? {
      PlainKeysAgree(table, KeysOf(values), values[i].text);
      if x :| x in table && x.key == values[i].text { OutcomeOfUnique(table, x); }
    }
  }

  /** What position i gets when its value is fetched alone. */
  function FetchedAlone(values: seq<Value>, i: nat, table: seq<Instance>): Fetched
    requires i < |values|
  {
    FetchedAt([values[i]], 0, AnswerFor(KeysOf([values[i]]), table, None))
  }

  ghost predicate LikeAlone(values: seq<Value>, table: seq<Instance>, i: nat)
    requires i < |values|
  {
    FetchedAt(values, i, AnswerFor(KeysOf(values), table, None)) == FetchedAlone(values, i, table)
  }

  /** Fetching many values gives at every position and on every table what fetching that value
      alone gives, if and only if no key can be starved. */
  lemma FetchedLikeAloneIff(values: seq<Value>)
    requires KeysOf(values) != []
    ensures (forall table, i: nat :: Unique(table) && i < |values| ==> LikeAlone(values, table, i)) <==>
            NoneStarved(KeysOf(values))
  {
    if NoneStarved(KeysOf(values)) {
      forall table, i: nat | Unique(table) && i < |values| ensures LikeAlone(values, table, i) {
        FedLikeAlone(values, table, i);
      }
    } else {
      var k :| k in KeysOf(values) && ',' !in k;
      var i :| 0 <= i < |values| && values[i] == Key(k);
      StarvedUnlikeAlone(values, i);
    }
  }

  /** For a key, both are what the executor answers. */
  lemma FetchedIsAggregated(values: seq<Value>, table: seq<Instance>, i: nat)
    requires i < |values| && values[i].Key?
    ensures var text := values[i].text;
            && KeysOf(values) != []
            && FetchedAt(values, i, AnswerFor(KeysOf(values), table, None)) ==
                 Caught(text, Aggregated(table, KeysOf(values), text))
            && FetchedAlone(values, i, table) == Caught(text, Aggregated(table, [text], text))
  {
    OneKey(values[i].text);
    assert values[i] in values;
  }

  lemma FedLikeAlone(values: seq<Value>, table: seq<Instance>, i: nat)
    requires KeysOf(values) != [] && NoneStarved(KeysOf(values)) && Unique(table) && i < |values|
    ensures LikeAlone(values, table, i)
  {
    if values[i].Key? {
      FetchedIsAggregated(values, table, i);
      assert values[i] in values;
      SameAsSingle(table, KeysOf(values), values[i].text);
    }
  }

  lemma StarvedUnlikeAlone(values: seq<Value>, i: nat)
    requires i < |values| && values[i].Key? && ',' !in values[i].text && !NoneStarved(KeysOf(values))
    ensures exists table :: Unique(table) && !LikeAlone(values, table, i)
  {
    var k := values[i].text;
    assert values[i] in values;
    StarvedKey(KeysOf(values), k);
    var table := StarvingTable(KeysOf(values), k);
    FetchedIsAggregated(values, table, i);
    assert Unique(table) && !LikeAlone(values, table, i);
  }

  lemma OneKey(text: string)
    ensures KeysOf([Key(text)]) == [text]
  {
    assert [Key(text)] == [] + [Key(text)];
    KeysOfMore([], Key(text));
  }

  /** When the one query fails, every key gets its placeholder and every other value itself. */
  lemma FetchedOfFailure(values: seq<Value>, table: seq<Instance>, error: string, i: nat)
    requires i < |values|
    ensures var got := FetchedAt(values, i, AnswerFor(KeysOf(values), table, Some(error)));
            got == if values[i].Key? then Placeholder(values[i].text) else Untouched(values[i])
  {
    assert values[i] in values;
  }

  /** An executor that was asked for each number or string in turn. */
  function AskEach(values: seq<Value>): Books
  {
    if values == [] then Books(NO_QUERIES, map[], 0, 0, map[], Ledger(map[], map[])) else
    var n := |values| - 1;
    if values[n].Key? then Ask(AskEach(values[..n]), values[n].text) else AskEach(values[..n])
  }

  /** The promises handed out, by position. */
  function PromisesOf(values: seq<Value>): (r: seq<Option<Promise>>)
    ensures |r| == |values|
  {
    if values == [] then [] else
    var n := |values| - 1;
    PromisesOf(values[..n]) + [if values[n].Key? then Some(AskEach(values[..n]).promises) else None]
  }

  ghost predicate Waiting(b: Books, values: seq<Value>, promises: seq<Option<Promise>>)
  {
    && |promises| == |values|
    && forall j :: 0 <= j < |values| && values[j].Key? ==>
         promises[j].Some? && Sits(b.ledger, promises[j].value, values[j].text, Queued)
  }

  lemma AskKeepsWaiting(b: Books, values: seq<Value>, promises: seq<Option<Promise>>, key: string)
    requires Sound(b) && Waiting(b, values, promises)
    ensures Waiting(Ask(b, key), values + [Key(key)], promises + [Some(b.promises)])
  {
  }

  /** Asking for a key adds it to the keys of the next query unless it is one of them. */
  lemma KeysOfMore(values: seq<Value>, v: Value)
    ensures KeysOf(values + [v]) ==
              if v.Key? && Key(v.text) !in values then KeysOf(values) + [v.text] else KeysOf(values)
  {
    assert (values + [v])[..|values|] == values;
  }

  lemma AskedKeys(b: Books, values: seq<Value>, key: string)
    requires WellFormed(b.queries) && b.queries.keys == KeysOf(values)
    ensures Ask(b, key).queries.keys == KeysOf(values + [Key(key)])
  {
    KeysOfMore(values, Key(key));
    assert key in b.queries.waiting <==> key in KeysOf(values);
  }

  lemma AskEachMore(values: seq<Value>, v: Value)
    ensures AskEach(values + [v]) == if v.Key? then Ask(AskEach(values), v.text) else AskEach(values)
    ensures PromisesOf(values + [v]) == PromisesOf(values) + [if v.Key? then Some(AskEach(values).promises) else None]
  {
    assert (values + [v])[..|values|] == values;
  }

  ghost predicate Asks(b: Books, values: seq<Value>, promises: seq<Option<Promise>>)
  {
    Sound(b) && b.queries.keys == KeysOf(values) && Waiting(b, values, promises)
  }

  lemma AskKeepsAsks(b: Books, values: seq<Value>, promises: seq<Option<Promise>>, v: Value)
    requires Asks(b, values, promises)
    ensures v.Key? ==> Asks(Ask(b, v.text), values + [v], promises + [Some(b.promises)])
    ensures v.Other? ==> Asks(b, values + [v], promises + [None])
  {
    KeysOfMore(values, v);
    if v.Key? {
      AskKeepsSound(b, v.text);
      AskedKeys(b, values, v.text);
      AskKeepsWaiting(b, values, promises, v.text);
    }
  }

  lemma NothingAsked()
    ensures Asks(AskEach([]), [], PromisesOf([]))
  {
  }

  lemma AskEachStep(values: seq<Value>, v: Value)
    requires Asks(AskEach(values), values, PromisesOf(values))
    ensures Asks(AskEach(values + [v]), values + [v], PromisesOf(values + [v]))
  {
    AskKeepsAsks(AskEach(values), values, PromisesOf(values), v);
    AskEachMore(values, v);
  }

  lemma {:induction false} AskEachWaits(values: seq<Value>)
    ensures Asks(AskEach(values), values, PromisesOf(values))
    decreases |values|
  {
    if values == [] {
      NothingAsked();
    } else {
      var early, last := values[..|values| - 1], values[|values| - 1];
      AskEachWaits(early);
      AskEachStep(early, last);
      assert values == early + [last];
    }
  }

  method AskAll(values: seq<Value>) returns (executor: AggregatedQueriesExecutor, promises: seq<Option<Promise>>)
    ensures fresh(executor) && executor.Now() == AskEach(values) && promises == PromisesOf(values)
  {
    executor := new AggregatedQueriesExecutor();
    promises := [];
    for i := 0 to |values|
      invariant fresh(executor) && Sound(executor.Now())
      invariant executor.Now() == AskEach(values[..i]) && promises == PromisesOf(values[..i])
    {
      assert values[..i + 1][..i] == values[..i];
      if values[i].Key? {
        var p := executor.Query(values[i].text);
        promises := promises + [Some(p)];
      } else {
        promises := promises + [None];
      }
    }
    assert values[..|values|] == values;
  }

  /** What has been settled is the share of each value. */
  lemma SharesSettled(b: Books, id: nat, answer: Answer, p: Promise, key: string)
    requires Sound(b) && b.queries.keys != [] && id == b.executions && Sits(b.ledger, p, key, Queued)
    ensures Sound(Begin(b)) && id in Begin(b).flights
    ensures var done := End(Begin(b), id, answer).settled;
            p in done && done[p] == Share(answer, key)
  {
    BeginKeepsSound(b);
    assert Sits(Begin(b).ledger, p, key, Flying(id));
  }

  ghost predicate HasShares(values: seq<Value>, promises: seq<Option<Promise>>, settled: map<Promise, Settlement>,
                            answer: Answer)
  {
    && |promises| == |values|
    && forall j :: 0 <= j < |values| && values[j].Key? ==>
         && promises[j].Some? && promises[j].value in settled
         && settled[promises[j].value] == Share(answer, values[j].text)
  }

  /** Promise.all over the promises, with their catch handlers. */
  method Collect(values: seq<Value>, promises: seq<Option<Promise>>, settled: map<Promise, Settlement>,
                 ghost answer: Answer)
    returns (r: seq<Fetched>)
    requires HasShares(values, promises, settled, answer)
    ensures |r| == |values| && forall i :: 0 <= i < |values| ==> r[i] == FetchedAt(values, i, answer)
  {
    r := [];
    for i := 0 to |values|
      invariant |r| == i
      invariant forall j :: 0 <= j < i ==> r[j] == FetchedAt(values, j, answer)
    {
      if values[i].Other? {
        r := r + [Untouched(values[i])];
      } else {
        r := r + [Caught(values[i].text, settled[promises[i].value])];
      }
    }
  }

  lemma NoKeysNoShares(values: seq<Value>, promises: seq<Option<Promise>>, settled: map<Promise, Settlement>,
                       answer: Answer)
    requires KeysOf(values) == [] && |promises| == |values|
    ensures HasShares(values, promises, settled, answer)
  {
    assert forall text :: Key(text) !in values;
    assert forall j :: 0 <= j < |values| ==> values[j] in values;
  }

  /** Execute and wait for the answer; the answer is the server's, or a failure. */
  method Drive(executor: AggregatedQueriesExecutor, table: seq<Instance>, failure: Option<string>,
               ghost values: seq<Value>, ghost promises: seq<Option<Promise>>) returns (ghost answer: Answer)
    requires Sound(executor.Now()) && Waiting(executor.Now(), values, promises)
    requires executor.queries.keys == KeysOf(values) && |promises| == |values|
    modifies executor
    ensures answer == AnswerFor(KeysOf(values), table, failure)
    ensures HasShares(values, promises, executor.settled, answer)
  {
    ghost var asked := executor.Now();
    var request := executor.Execute();
    answer := AnswerFor(KeysOf(values), table, failure);
    if request.Some? {
      var (id, filterValue, limit) := request.value;
      var reply: Answer := if failure.Some? then Err(failure.value) else Ok(Items(table, filterValue, limit));
      executor.Finish(id, reply);
      AllSharesSettled(asked, id, reply, values, promises);
    } else {
      NoKeysNoShares(values, promises, executor.settled, answer);
    }
  }

  /** The executor driven for one list of values: every promise is settled with its position's
      share of the one answer. */
  method FetchPKs(values: seq<Value>, table: seq<Instance>, failure: Option<string>) returns (r: seq<Fetched>)
    ensures |r| == |values|
    ensures forall i :: 0 <= i < |values| ==> r[i] == FetchedAt(values, i, AnswerFor(KeysOf(values), table, failure))
  {
    var executor, promises := AskAll(values);
    AskEachWaits(values);
    ghost var answer := Drive(executor, table, failure, values, promises);
    r := Collect(values, promises, executor.settled, answer);
  }

  lemma AllSharesSettled(b: Books, id: nat, answer: Answer, values: seq<Value>, promises: seq<Option<Promise>>)
    requires Sound(b) && b.queries.keys != [] && id == b.executions && Waiting(b, values, promises)
    ensures Sound(Begin(b)) && id in Begin(b).flights
    ensures var done := End(Begin(b), id, answer).settled;
            forall j :: 0 <= j < |values| && values[j].Key? ==>
              promises[j].value in done && done[promises[j].value] == Share(answer, values[j].text)
  {
    BeginKeepsSound(b);
    forall j | 0 <= j < |values| && values[j].Key?
      ensures var done := End(Begin(b), id, answer).settled;
              promises[j].value in done && done[promises[j].value] == Share(answer, values[j].text)
    {
      SharesSettled(b, id, answer, promises[j].value, values[j].text);
    }
  }
}
