/** The deep children and parents of rows of a self-referencing table
    (vstutils/models/queryset.py): a recursive query, and a recursion with an accumulator for
    databases without one.  The table may contain cycles. */
module DeepTree {
  import opened Common

  type Id = int

  /** The rows of the table and their parent column; a row without a parent has NULL there. */
  datatype Forest = Forest(nodes: set<Id>, parent: map<Id, Id>)

  datatype Direction = Children | Parents

  /** The foreign key constraint. */
  predicate Valid(g: Forest)
  {
    g.parent.Keys <= g.nodes && forall n :: n in g.parent ==> g.parent[n] in g.nodes
  }

  predicate Edge(g: Forest, d: Direction, x: Id, y: Id)
  {
    match d
    case Children => y in g.parent && g.parent[y] == x
    case Parents => x in g.parent && g.parent[x] == y
  }

  /** objects.filter(<relation>__id__in=ids) */
  function Related(g: Forest, d: Direction, ids: set<Id>): set<Id>
  {
    set y, x | y in g.nodes && x in ids && Edge(g, d, x, y) :: y
  }

  // ---- the two back ends ----

  /** _deep_nested_ids_without_cte of the queryset that selects the given rows. */
  function DeepNestedIds(g: Forest, d: Direction, rows: set<Id>, accumulated: set<Id>): set<Id>
    requires Valid(g) && rows <= g.nodes
    decreases g.nodes - accumulated
  {
    var listId := rows - accumulated;
    var grown := accumulated + listId;
    var subs := Related(g, d, listId);
    if subs != {} then
      assert exists x :: x in listId;
      grown + DeepNestedIds(g, d, subs, grown)
    else grown
  }

  /** A row of the recursive query: the column that is selected and the column that is joined on. */
  datatype Pair = Pair(get: Option<Id>, deep: Option<Id>)

  function ParentOf(g: Forest, n: Id): Option<Id>
  {
    if n in g.parent then Some(g.parent[n]) else None
  }

  function TableRows(g: Forest, d: Direction): set<Pair>
  {
    set n | n in g.nodes :: if d.Children? then Pair(Some(n), ParentOf(g, n)) else Pair(ParentOf(g, n), Some(n))
  }

  function Joined(table: set<Pair>, ids: set<Id>): set<Pair>
  {
    set t | t in table && t.deep.Some? && t.deep.value in ids
  }

  function Selected(rows: set<Pair>): set<Id>
  {
    set t | t in rows && t.get.Some? :: t.get.value
  }

  /** How WITH RECURSIVE ... UNION is evaluated: rows seen before are dropped, and only the
      new ones are joined in the next round. */
  function SemiNaive(table: set<Pair>, result: set<Pair>, working: set<Pair>): set<Pair>
    decreases table - result, working
  {
    if working == {} then result else
    var added := Joined(table, Selected(working)) - result;
    assert added != {} ==> exists t :: t in added;
    SemiNaive(table, result + added, added)
  }

  function Cte(g: Forest, d: Direction, start: set<Id>): set<Id>
  {
    var seed := Joined(TableRows(g, d), start);
    Selected(SemiNaive(TableRows(g, d), seed, seed))
  }

  function WithCte(g: Forest, d: Direction, start: set<Id>, withCurrent: bool): set<Id>
  {
    g.nodes * (Cte(g, d, start) + if withCurrent then start else {})
  }

  function WithoutCte(g: Forest, d: Direction, start: set<Id>, withCurrent: bool): set<Id>
    requires Valid(g) && start <= g.nodes
  {
    var qs := g.nodes * DeepNestedIds(g, d, start, {});
    if withCurrent then qs else qs - start
  }

  // ---- what they compute ----

  ghost predicate Closed(g: Forest, d: Direction, s: set<Id>)
  {
    forall x, y :: x in s && Edge(g, d, x, y) ==> y in s
  }

  ghost predicate IsLeastClosed(g: Forest, d: Direction, base: set<Id>, s: set<Id>)
  {
    base <= s && Closed(g, d, s) && forall c :: base <= c && Closed(g, d, c) ==> s <= c
  }

  /** A nonempty walk along edges. */
  ghost predicate Path(g: Forest, d: Direction, p: seq<Id>)
  {
    p != [] && forall i :: 0 <= i < |p| - 1 ==> Edge(g, d, p[i], p[i + 1])
  }

  /** y is reached from a row of start by at least the given number of edges. */
  ghost predicate Reached(g: Forest, d: Direction, start: set<Id>, y: Id, edges: nat)
  {
    exists p :: Path(g, d, p) && |p| > edges && p[0] in start && p[|p| - 1] == y
  }

  lemma {:induction false} AccumulatorIsLeastClosed(g: Forest, d: Direction, rows: set<Id>, accumulated: set<Id>)
    requires Valid(g) && rows <= g.nodes
    requires forall x, y :: x in accumulated && Edge(g, d, x, y) ==> y in accumulated + rows
    ensures IsLeastClosed(g, d, accumulated + rows, DeepNestedIds(g, d, rows, accumulated))
    decreases g.nodes - accumulated
  {
    var listId := rows - accumulated;
    var grown := accumulated + listId;
    var subs := Related(g, d, listId);
    assert grown == accumulated + rows;
    forall x, y | x in grown && Edge(g, d, x, y) ensures y in grown + subs {
      if x in listId { assert y in subs; }
    }
    if subs != {} {
      assert exists x :: x in listId;
      AccumulatorIsLeastClosed(g, d, subs, grown);
      forall c | grown <= c && Closed(g, d, c) ensures grown + subs <= c {}
    }
  }

  lemma {:induction false} SemiNaiveIsLeastClosed(g: Forest, d: Direction, base: set<Id>, result: set<Pair>,
                                                  working: set<Pair>)
    requires Valid(g)
    requires working <= result <= TableRows(g, d)
    requires base <= Selected(result)
    requires forall c :: base <= c && Closed(g, d, c) ==> Selected(result) <= c
    requires forall x, y :: x in Selected(result) && x !in Selected(working) && Edge(g, d, x, y) ==>
               y in Selected(result)
    ensures IsLeastClosed(g, d, base, Selected(SemiNaive(TableRows(g, d), result, working)))
    decreases TableRows(g, d) - result, working
  {
    var table := TableRows(g, d);
    if working == {} {
    } else {
      var added := Joined(table, Selected(working)) - result;
      assert added != {} ==> exists t :: t in added;
      JoinFollowsEdges(g, d, Selected(working));
      forall c | base <= c && Closed(g, d, c) ensures Selected(result + added) <= c {
        assert Selected(working) <= Selected(result) <= c;
        forall y | y in Selected(added) ensures y in c {
          assert y in Selected(Joined(table, Selected(working)));
          var x :| x in Selected(working) && Edge(g, d, x, y);
        }
      }
      forall x, y | x in Selected(result + added) && x !in Selected(added) && Edge(g, d, x, y)
        ensures y in Selected(result + added)
      {
        assert x in Selected(result);
        if x in Selected(working) {
          assert y in Selected(Joined(table, Selected(working)));
        }
      }
      SemiNaiveIsLeastClosed(g, d, base, result + added, added);
    }
  }

  /** One round of the recursive query is one step along the relation. */
  lemma JoinFollowsEdges(g: Forest, d: Direction, ids: set<Id>)
    requires Valid(g)
    ensures Selected(Joined(TableRows(g, d), ids)) == Related(g, d, ids)
  {
    var joined := Joined(TableRows(g, d), ids);
    forall y | y in Related(g, d, ids) ensures y in Selected(joined) {
      var x :| x in ids && Edge(g, d, x, y);
      var n := if d.Children? then y else x;
      assert Pair(Some(y), Some(x)) in TableRows(g, d);
      assert Pair(Some(y), Some(x)) in joined;
    }
    forall y | y in Selected(joined) ensures y in Related(g, d, ids) {
      var t :| t in joined && t.get == Some(y);
      assert Edge(g, d, t.deep.value, y);
    }
  }

  /** The recursive query computes the least closed set over the direct relatives. */
  lemma CteIsLeastClosed(g: Forest, d: Direction, start: set<Id>)
    requires Valid(g)
    ensures IsLeastClosed(g, d, Related(g, d, start), Cte(g, d, start))
  {
    var seed := Joined(TableRows(g, d), start);
    JoinFollowsEdges(g, d, start);
    SemiNaiveIsLeastClosed(g, d, Related(g, d, start), seed, seed);
  }

  lemma FallbackIsLeastClosed(g: Forest, d: Direction, start: set<Id>)
    requires Valid(g) && start <= g.nodes
    ensures IsLeastClosed(g, d, start, DeepNestedIds(g, d, start, {}))
  {
    AccumulatorIsLeastClosed(g, d, start, {});
    assert {} + start == start;
  }

  lemma StaysInTable(g: Forest, d: Direction, start: set<Id>)
    requires Valid(g)
    ensures Cte(g, d, start) <= g.nodes
    ensures start <= g.nodes ==> DeepNestedIds(g, d, start, {}) <= g.nodes
  {
    assert Closed(g, d, g.nodes);
    CteIsLeastClosed(g, d, start);
    if start <= g.nodes { FallbackIsLeastClosed(g, d, start); }
  }

  /** The accumulator finds the start rows and what the recursive query finds. */
  lemma FallbackIsStartAndCte(g: Forest, d: Direction, start: set<Id>)
    requires Valid(g) && start <= g.nodes
    ensures DeepNestedIds(g, d, start, {}) == start + Cte(g, d, start)
  {
    var star, plus := DeepNestedIds(g, d, start, {}), Cte(g, d, start);
    FallbackIsLeastClosed(g, d, start);
    CteIsLeastClosed(g, d, start);
    forall x, y | x in start + plus && Edge(g, d, x, y) ensures y in start + plus {
      if x in start { assert y in Related(g, d, start); }
    }
    assert Closed(g, d, start + plus);
    forall y | y in Related(g, d, start) ensures y in star {
      var x :| x in start && Edge(g, d, x, y);
    }
  }

  /** With the current rows both back ends answer the same, on every table.  Without them the
      fallback answers the query's rows minus the start rows; so the two agree exactly when no
      start row can be reached from a start row. */
  lemma BackEndsAgree(g: Forest, d: Direction, start: set<Id>)
    requires Valid(g) && start <= g.nodes
    ensures WithoutCte(g, d, start, true) == WithCte(g, d, start, true)
    ensures WithoutCte(g, d, start, false) == WithCte(g, d, start, false) - start
    ensures WithoutCte(g, d, start, false) == WithCte(g, d, start, false) <==>
            forall y :: y in start ==> !Reached(g, d, start, y, 1)
  {
    FallbackIsStartAndCte(g, d, start);
    StaysInTable(g, d, start);
    forall y ensures y in Cte(g, d, start) <==> Reached(g, d, start, y, 1) { CteIsReachability(g, d, start, y); }
    var plus := Cte(g, d, start);
    assert WithCte(g, d, start, false) == plus;
    RemovesNothingIff(plus, start);
  }

  lemma RemovesNothingIff(a: set<Id>, b: set<Id>)
    ensures a - b == a <==> forall y :: y in b ==> y !in a
  {
    if a - b == a {
      forall y | y in b ensures y !in a { assert y !in a - b; }
    }
    if forall y :: y in b ==> y !in a {
      assert a - b == a;
    }
  }

  /** A start row on a cycle: the query returns it, the fallback does not. */
  lemma BackEndsDifferOnCycle()
    ensures var g := Forest({1, 2}, map[1 := 2, 2 := 1]);
            Valid(g) && WithCte(g, Children, {1}, false) != WithoutCte(g, Children, {1}, false)
  {
    var g := Forest({1, 2}, map[1 := 2, 2 := 1]);
    assert Path(g, Children, [1, 2, 1]) && [1, 2, 1][2] == 1;
    assert Reached(g, Children, {1}, 1, 1);
    BackEndsAgree(g, Children, {1});
  }

  /** Whose parent a row is, is its child: the direct relatives are found in both directions, and
      with them what they are related to. */
  lemma DirectRelatives(g: Forest, parent: Id, child: Id)
    requires Valid(g) && child in g.parent && g.parent[child] == parent
    ensures child in WithCte(g, Children, {parent}, false) && parent in WithCte(g, Parents, {child}, false)
    ensures WithCte(g, Children, {child}, false) <= WithCte(g, Children, {parent}, false)
    ensures WithCte(g, Parents, {parent}, false) <= WithCte(g, Parents, {child}, false)
  {
    StaysInTable(g, Children, {parent});
    StaysInTable(g, Parents, {child});
    OneStep(g, Children, parent, child);
    OneStep(g, Parents, child, parent);
  }

  lemma OneStep(g: Forest, d: Direction, x: Id, y: Id)
    requires Valid(g) && Edge(g, d, x, y)
    ensures y in Cte(g, d, {x}) && Cte(g, d, {y}) <= Cte(g, d, {x})
  {
    CteIsLeastClosed(g, d, {x});
    CteIsLeastClosed(g, d, {y});
    assert y in Related(g, d, {x});
    assert Related(g, d, {y}) <= Cte(g, d, {x});
  }

  const CHAIN := Forest({1, 2, 3}, map[2 := 1, 3 := 2])

  /** In the chain of 1 with child 2 with child 3. */
  lemma ChainExample()
    ensures Valid(CHAIN)
    ensures WithCte(CHAIN, Children, {1}, false) == {2, 3} && WithoutCte(CHAIN, Parents, {3}, true) == {1, 2, 3}
  {
    ChainDown();
    ChainUp();
    StaysInTable(CHAIN, Children, {1});
    BackEndsAgree(CHAIN, Parents, {3});
  }

  lemma ChainDown()
    ensures Cte(CHAIN, Children, {1}) == {2, 3}
  {
    OneStep(CHAIN, Children, 1, 2);
    OneStep(CHAIN, Children, 2, 3);
    CteIsLeastClosed(CHAIN, Children, {1});
    assert Closed(CHAIN, Children, {2, 3});
  }

  lemma ChainUp()
    ensures Cte(CHAIN, Parents, {3}) == {1, 2}
  {
    OneStep(CHAIN, Parents, 3, 2);
    OneStep(CHAIN, Parents, 2, 1);
    CteIsLeastClosed(CHAIN, Parents, {3});
    assert Closed(CHAIN, Parents, {1, 2});
  }

  // ---- reachability ----

  lemma {:induction false} ClosedHoldsPaths(g: Forest, d: Direction, s: set<Id>, p: seq<Id>)
    requires Closed(g, d, s) && Path(g, d, p) && p[0] in s
    ensures p[|p| - 1] in s
    decreases |p|
  {
    if |p| > 1 {
      var q := p[..|p| - 1];
      assert Path(g, d, q);
      ClosedHoldsPaths(g, d, s, q);
      assert Edge(g, d, p[|p| - 2], p[|p| - 1]);
    }
  }

  lemma ReachedSteps(g: Forest, d: Direction, start: set<Id>, x: Id, y: Id, edges: nat)
    requires Reached(g, d, start, x, edges) && Edge(g, d, x, y)
    ensures Reached(g, d, start, y, edges + 1)
    ensures Reached(g, d, start, y, edges)
  {
    var p :| Path(g, d, p) && |p| > edges && p[0] in start && p[|p| - 1] == x;
    var q := p + [y];
    assert Path(g, d, q) && q[0] in start && q[|q| - 1] == y;
  }

  /** Everything reached from the start by some edges is the recursive query's answer. */
  lemma CteIsReachability(g: Forest, d: Direction, start: set<Id>, y: Id)
    requires Valid(g)
    ensures y in Cte(g, d, start) <==> Reached(g, d, start, y, 1)
  {
    var plus := Cte(g, d, start);
    CteIsLeastClosed(g, d, start);
    var reached := set z | z in g.nodes && Reached(g, d, start, z, 1);
    forall x, z | x in reached && Edge(g, d, x, z) ensures z in reached { ReachedSteps(g, d, start, x, z, 1); }
    forall z | z in Related(g, d, start) ensures z in reached {
      var x :| x in start && Edge(g, d, x, z);
      assert Path(g, d, [x]) && [x][0] == x;
      assert Reached(g, d, start, x, 0);
      ReachedSteps(g, d, start, x, z, 0);
    }
    assert Closed(g, d, reached);
    if Reached(g, d, start, y, 1) {
      var p :| Path(g, d, p) && |p| > 1 && p[0] in start && p[|p| - 1] == y;
      assert Edge(g, d, p[0], p[1]);
      assert p[1] in Related(g, d, start);
      assert Path(g, d, p[1..]) by {
        forall i | 0 <= i < |p[1..]| - 1 ensures Edge(g, d, p[1..][i], p[1..][i + 1]) {
          assert Edge(g, d, p[i + 1], p[i + 2]);
        }
      }
      ClosedHoldsPaths(g, d, plus, p[1..]);
    }
  }

  /** The accumulator computes reachability by any number of edges. */
  lemma FallbackIsReachability(g: Forest, d: Direction, start: set<Id>, y: Id)
    requires Valid(g) && start <= g.nodes
    ensures y in DeepNestedIds(g, d, start, {}) <==> Reached(g, d, start, y, 0)
  {
    FallbackIsStartAndCte(g, d, start);
    CteIsReachability(g, d, start, y);
    if y in start { assert Path(g, d, [y]) && [y][0] == y; }
    if Reached(g, d, start, y, 0) {
      var p :| Path(g, d, p) && |p| > 0 && p[0] in start && p[|p| - 1] == y;
    }
  }

  /** get_children and get_parents with the current rows: extensive, monotone, idempotent. */
  lemma IsClosureOperator(g: Forest, d: Direction, s: set<Id>, t: set<Id>)
    requires Valid(g) && s <= t <= g.nodes
    ensures s <= WithoutCte(g, d, s, true) <= WithoutCte(g, d, t, true) <= g.nodes
    ensures WithoutCte(g, d, WithoutCte(g, d, s, true), true) == WithoutCte(g, d, s, true)
  {
    FallbackIsLeastClosed(g, d, s);
    FallbackIsLeastClosed(g, d, t);
    StaysInTable(g, d, s);
    StaysInTable(g, d, t);
    var once := DeepNestedIds(g, d, s, {});
    assert g.nodes * once == once;
    FallbackIsLeastClosed(g, d, once);
  }

  function Opposite(d: Direction): Direction
  {
    if d.Children? then Parents else Children
  }

  lemma ReverseIsPath(g: Forest, d: Direction, p: seq<Id>)
    requires Path(g, d, p)
    ensures exists q :: Path(g, Opposite(d), q) && |q| == |p| && q[0] == p[|p| - 1] && q[|q| - 1] == p[0]
  {
    var q := seq(|p|, i requires 0 <= i < |p| => p[|p| - 1 - i]);
    forall i | 0 <= i < |q| - 1 ensures Edge(g, Opposite(d), q[i], q[i + 1]) {
      assert Edge(g, d, p[|p| - 2 - i], p[|p| - 2 - i + 1]);
    }
    assert Path(g, Opposite(d), q);
  }

  /** b is a deep child of a exactly when a is a deep parent of b, in either back end. */
  lemma ChildrenAndParentsAreDual(g: Forest, a: Id, b: Id)
    requires Valid(g) && a in g.nodes && b in g.nodes
    ensures b in WithoutCte(g, Children, {a}, true) <==> a in WithoutCte(g, Parents, {b}, true)
    ensures b in WithCte(g, Children, {a}, false) <==> a in WithCte(g, Parents, {b}, false)
  {
    FallbackIsReachability(g, Children, {a}, b);
    FallbackIsReachability(g, Parents, {b}, a);
    CteIsReachability(g, Children, {a}, b);
    CteIsReachability(g, Parents, {b}, a);
    forall n: nat | n <= 1
      ensures Reached(g, Children, {a}, b, n) <==> Reached(g, Parents, {b}, a, n)
    {
      if Reached(g, Children, {a}, b, n) {
        var p :| Path(g, Children, p) && |p| > n && p[0] in {a} && p[|p| - 1] == b;
        ReverseIsPath(g, Children, p);
      }
      if Reached(g, Parents, {b}, a, n) {
        var p :| Path(g, Parents, p) && |p| > n && p[0] in {b} && p[|p| - 1] == a;
        ReverseIsPath(g, Parents, p);
      }
    }
  }
}
