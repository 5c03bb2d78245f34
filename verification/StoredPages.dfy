/** Pages and their tags over the finest runs: data is committed, and the cache accessed, one
    step at a time. */
module StoredPages {
  import opened Common
  import opened EtagStore
  import opened EtagRuns
  import HttpCache

  type Log = seq<Option<HttpCache.Write>>

  /** What is committed before step i of a run; step j commits commits[j], if anything, beside
      its cache access. */
  function CommittedBy(commits: Log, i: nat): seq<HttpCache.Write>
    requires i <= |commits|
  {
    if i == 0 then [] else
    CommittedBy(commits, i - 1) + (if commits[i - 1].Some? then [commits[i - 1].value] else [])
  }

  predicate TouchesAt(commits: Log, c: nat, r: HttpCache.Resource)
    requires c < |commits|
  {
    commits[c].Some? && HttpCache.Touches(commits[c].value, r)
  }

  /** Step c commits nothing that touches the resource, or an invalidation of the row takes place
      between two steps. */
  ghost predicate NoticedBetween(s: System, steps: seq<Step>, commits: Log, c: nat, pk: Pk, query: string,
                                 from: nat, to: nat)
    requires c < |commits|
  {
    TouchesAt(commits, c, HttpCache.Resource(Some(pk), query)) ==>
      exists i: nat, j: nat :: from < i && j < to && Invalidation(s, steps, pk, i, j)
  }

  lemma {:induction false} SameUnlessTouched(commits: Log, r: HttpCache.Resource, p: nat, q: nat)
    requires p <= q <= |commits|
    ensures HttpCache.History(CommittedBy(commits, p), r) == HttpCache.History(CommittedBy(commits, q), r) <==>
              forall c :: p <= c < q ==> !TouchesAt(commits, c, r)
    ensures |HttpCache.History(CommittedBy(commits, p), r)| <= |HttpCache.History(CommittedBy(commits, q), r)|
  {
    if p < q {
      SameUnlessTouched(commits, r, p, q - 1);
      OneMore(commits, r, q - 1);
      if TouchesAt(commits, q - 1, r) {
        assert |HttpCache.History(CommittedBy(commits, p), r)| < |HttpCache.History(CommittedBy(commits, q), r)|;
      }
    }
  }

  lemma OneMore(commits: Log, r: HttpCache.Resource, c: nat)
    requires c < |commits|
    ensures HttpCache.History(CommittedBy(commits, c + 1), r) ==
              HttpCache.History(CommittedBy(commits, c), r)
              + (if TouchesAt(commits, c, r) then [commits[c].value] else [])
  {
    var early := CommittedBy(commits, c);
    if commits[c].Some? {
      assert (early + [commits[c].value])[..|early|] == early;
    } else {
      assert early + [] == early;
    }
  }

  /** A page of a row is rendered at step p; its tag is read by the two accesses a0 and a1, later
      or not; and when it is used, in If-None-Match or If-Match, the check reads the version by
      the two accesses b0 and b1.  If every touching write that is committed after the page was
      rendered and before the check is noticed, by an invalidation that begins after the tag was
      read and ends before the check begins, then a check that finds the tag current finds the
      data just as the page shows it: in every run of any number of calls, interleaved at every
      access, with any entries lost.  When signals follow their commits, as outside transactions,
      a write is noticed if the tag was read before it was committed and its invalidation is over
      when the check begins. */
  lemma CurrentMeansShown(s: System, steps: seq<Step>, commits: Log, pk: Pk, query: string, p: nat,
                          reader: Pid, a0: nat, a1: nat, checker: Pid, b0: nat, b1: nat)
    requires Sound(s) && |commits| == |steps| && p <= a1 < b0
    requires RowRead(s, steps, reader, pk, a0, a1) && RowRead(s, steps, checker, pk, b0, b1)
    requires forall c :: p <= c < b0 ==> NoticedBetween(s, steps, commits, c, pk, query, a1, b0)
    ensures reader in At(s, steps, a1).calls && At(s, steps, a1).calls[reader].Reading?
    ensures checker in At(s, steps, b1).calls && At(s, steps, b1).calls[checker].Reading?
    ensures Answer(At(s, steps, a1), reader) == Answer(At(s, steps, b1), checker) ==>
              HttpCache.History(CommittedBy(commits, b0), HttpCache.Resource(Some(pk), query)) ==
              HttpCache.History(CommittedBy(commits, p), HttpCache.Resource(Some(pk), query))
  {
    var r := HttpCache.Resource(Some(pk), query);
    StillReading(s, steps, reader, pk, a0, a1);
    StillReading(s, steps, checker, pk, b0, b1);
    SameUnlessTouched(commits, r, p, b0);
    if c :| p <= c < b0 && TouchesAt(commits, c, r) {
      assert NoticedBetween(s, steps, commits, c, pk, query, a1, b0);
      var i: nat, j: nat :| a1 < i && j < b0 && Invalidation(s, steps, pk, i, j);
      NoRepeat(s, steps, pk, reader, a0, a1, i, j, checker, b0, b1);
    }
  }

  /** Row 7 was invalidated, by a call that drew value 0 and postfix 1. */
  const INVALIDATED: map<Key, Uuid> := map[PostfixKey := 1, TableKey := 0, RowKey(1, 7) := 0]

  lemma InvalidatedRow()
    ensures var s := System(Store(map[], 0), map[]);
            Next(Next(s, InvalidateBegin(1, [Some(7)])), InvalidateEnd(1)) == System(Store(INVALIDATED, 2), map[])
  {
    var pks: seq<Option<Pk>> := [Some(7)];
    assert pks[0].Some? && RowKeys(1, pks) == {RowKey(1, pks[0].value)};
    var begun := Next(System(Store(map[], 0), map[]), InvalidateBegin(1, pks));
    assert begun == System(Store(map[PostfixKey := 1], 2), map[1 := Invalidating(pks, 1, 0)]);
    var keys := {TableKey} + RowKeys(1, pks);
    assert StoreMany(begun.store, keys, 0).entries == INVALIDATED;
  }

  lemma ReadInvalidated(n: nat, pid: Pid)
    ensures Next(System(Store(INVALIDATED, n), map[]), ReadPostfix(pid, 7)) ==
              System(Store(INVALIDATED, n + 1), map[pid := Reading(7, 1)])
    ensures Next(System(Store(INVALIDATED, n + 1), map[pid := Reading(7, 1)]), ReadRow(pid)) ==
              System(Store(INVALIDATED, n + 2), map[])
    ensures Answer(System(Store(INVALIDATED, n + 1), map[pid := Reading(7, 1)]), pid) == 0
  {
    assert map[pid := Reading(7, 1)] - {pid} == map[];
  }

  /** A tag read between invalidation and commit is current at the check though the page misses
      the write: process 1 invalidates row 7, process 2 reads its tag, the write is committed,
      and process 3 checks. */
  lemma UnnoticedExample()
    ensures var s := System(Store(map[], 0), map[]);
            var steps := [InvalidateBegin(1, [Some(7)]), InvalidateEnd(1), ReadPostfix(2, 7), ReadRow(2),
                          Expire({}), ReadPostfix(3, 7), ReadRow(3)];
            var commits := [None, None, None, None, Some(HttpCache.Write(HttpCache.Own(7), 1)), None, None];
            && RowRead(s, steps, 2, 7, 2, 3) && RowRead(s, steps, 3, 7, 5, 6)
            && TouchesAt(commits, 4, HttpCache.Resource(Some(7), ""))
            && 2 in At(s, steps, 3).calls && At(s, steps, 3).calls[2].Reading?
            && 3 in At(s, steps, 6).calls && At(s, steps, 6).calls[3].Reading?
            && Answer(At(s, steps, 3), 2) == Answer(At(s, steps, 6), 3)
  {
    var s := System(Store(map[], 0), map[]);
    var steps := [InvalidateBegin(1, [Some(7)]), InvalidateEnd(1), ReadPostfix(2, 7), ReadRow(2),
                  Expire({}), ReadPostfix(3, 7), ReadRow(3)];
    InvalidatedRow();
    ReadInvalidated(2, 2);
    ReadInvalidated(4, 3);
    assert At(s, steps, 1) == Next(s, steps[0]);
    assert At(s, steps, 2) == System(Store(INVALIDATED, 2), map[]);
    assert At(s, steps, 3) == System(Store(INVALIDATED, 3), map[2 := Reading(7, 1)]);
    assert At(s, steps, 4) == System(Store(INVALIDATED, 4), map[]);
    assert INVALIDATED - {} == INVALIDATED;
    assert At(s, steps, 5) == System(Store(INVALIDATED, 4), map[]);
    assert At(s, steps, 6) == System(Store(INVALIDATED, 5), map[3 := Reading(7, 1)]);
  }
}
