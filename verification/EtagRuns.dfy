/** Reads and invalidations of row versions by any number of processes, interleaved at
    every access to the shared cache, with entries lost at any time. */
module EtagRuns {
  import opened Common
  import opened EtagStore

  type Pid = nat

  /** A call that has made its first cache access: it knows the postfix it saw. */
  datatype Call =
    | Reading(pk: Pk, postfix: Uuid)
    | Invalidating(pks: seq<Option<Pk>>, postfix: Uuid, value: Uuid)

  datatype System = System(store: Store, calls: map<Pid, Call>)

  /** One access to the cache.  The steps of a call carry its process; a process makes
      one call at a time, and a step that is not enabled does nothing. */
  datatype Step =
    | ReadTable
    | ReadPostfix(pid: Pid, pk: Pk)
    | ReadRow(pid: Pid)
    | InvalidateAll
    | InvalidateBegin(pid: Pid, pks: seq<Option<Pk>>)
    | InvalidateEnd(pid: Pid)
    | Expire(keys: set<Key>)

  function Next(s: System, step: Step): System
  {
    match step
    case ReadTable => s.(store := GetOrSet(s.store, TableKey).0)
    case ReadPostfix(pid, pk) =>
      if pid in s.calls then s else
      var (store, p) := GetOrSet(s.store, PostfixKey);
      System(store, s.calls[pid := Reading(pk, p)])
    case ReadRow(pid) =>
      if pid !in s.calls || !s.calls[pid].Reading? then s else
      System(GetOrSet(s.store, RowKey(s.calls[pid].postfix, s.calls[pid].pk)).0, s.calls - {pid})
    case InvalidateAll => s.(store := Renew(s.store, All))
    case InvalidateBegin(pid, pks) =>
      if pid in s.calls then s else
      var (store, p) := GetOrSet(Store(s.store.entries, s.store.next + 1), PostfixKey);
      System(store, s.calls[pid := Invalidating(pks, p, s.store.next)])
    case InvalidateEnd(pid) =>
      if pid !in s.calls || !s.calls[pid].Invalidating? then s else
      var c := s.calls[pid];
      System(StoreMany(s.store, {TableKey} + RowKeys(c.postfix, c.pks), c.value), s.calls - {pid})
    case Expire(keys) => s.(store := Evict(s.store, keys))
  }

  /** The state before step i of a run. */
  function At(s: System, steps: seq<Step>, i: nat): System
    requires i <= |steps|
  {
    if i == 0 then s else Next(At(s, steps, i - 1), steps[i - 1])
  }

  /** What a row read answers when its second access happens in state s. */
  function Answer(s: System, pid: Pid): Uuid
    requires pid in s.calls && s.calls[pid].Reading?
  {
    GetOrSet(s.store, RowKey(s.calls[pid].postfix, s.calls[pid].pk)).1
  }

  ghost predicate Holds(s: Store, p: Uuid, pk: Pk, v: Uuid)
  {
    RowKey(p, pk) in s.entries && s.entries[RowKey(p, pk)] == v
  }

  /** The invariant of every run from an empty system: whatever is stored or held by a call
      was drawn; a value waiting to be written is nowhere else; and for one row no value is
      stored under two postfixes. */
  ghost predicate Sound(s: System)
  {
    && Valid(s.store)
    && (forall pid :: pid in s.calls ==> s.calls[pid].postfix < s.store.next)
    && (forall pid :: pid in s.calls && s.calls[pid].Invalidating? ==> Unwritten(s, s.calls[pid].value))
    && (forall a, b :: a in s.calls && b in s.calls && a != b && s.calls[a].Invalidating? && s.calls[b].Invalidating?
                       ==> s.calls[a].value != s.calls[b].value)
    && (forall p, q, pk, v :: Holds(s.store, p, pk, v) && Holds(s.store, q, pk, v) ==> p == q)
  }

  ghost predicate Unwritten(s: System, v: Uuid)
  {
    v < s.store.next && forall k :: k in s.store.entries ==> s.store.entries[k] != v
  }

  /** No call will ever write v: it was drawn, and no invalidation still holds it. */
  ghost predicate Spent(s: System, v: Uuid)
  {
    v < s.store.next && forall pid :: pid in s.calls && s.calls[pid].Invalidating? ==> s.calls[pid].value != v
  }

  /** Postfix p was drawn and is not the stored one: it never will be again. */
  ghost predicate Retired(s: System, p: Uuid)
  {
    p < s.store.next && (PostfixKey in s.store.entries ==> s.store.entries[PostfixKey] != p)
  }

  /** What is known of a value v once read for row pk, as a later invalidation and a later
      read go through their two accesses. */
  datatype Watch =
    | Seen(p: Uuid)
    | Hit(p: Uuid, invalidator: Pid, pks: seq<Option<Pk>>)
    | Gone
    | Rereading(reader: Pid)

  ghost predicate Known(s: System, pk: Pk, v: Uuid, w: Watch)
  {
    && Sound(s)
    && Spent(s, v)
    && match w
       case Seen(p) => p < s.store.next && forall q :: Holds(s.store, q, pk, v) ==> q == p
       case Hit(p, pid, pks) =>
         && (forall q :: Holds(s.store, q, pk, v) ==> q == p)
         && pid in s.calls && s.calls[pid].Invalidating? && s.calls[pid].pks == pks && s.calls[pid].postfix == p
       case Gone => forall q :: Holds(s.store, q, pk, v) ==> Retired(s, q)
       case Rereading(pid) =>
         && pid in s.calls && s.calls[pid].Reading? && s.calls[pid].pk == pk
         && !Holds(s.store, s.calls[pid].postfix, pk, v)
  }

  /** The process whose call is being watched takes no step that ends it. */
  predicate Undisturbed(w: Watch, step: Step)
  {
    match w
    case Hit(_, pid, _) => step != InvalidateEnd(pid)
    case Rereading(pid) => step != ReadRow(pid)
    case _ => true
  }

  /** The value a step may write: what an invalidation holds, or a new one. */
  function Writing(s: System, step: Step): Uuid
  {
    if step.InvalidateEnd? && step.pid in s.calls && s.calls[step.pid].Invalidating?
    then s.calls[step.pid].value else s.store.next
  }

  /** What is stored after a step was stored before, or is the value it writes, and then under
      one postfix only. */
  lemma WritesOneValue(s: System, step: Step)
    requires Sound(s)
    ensures var t := Next(s, step);
            && (forall p, pk, v :: Holds(t.store, p, pk, v) && v != Writing(s, step) ==> Holds(s.store, p, pk, v))
            && (forall p, q, pk ::
                  Holds(t.store, p, pk, Writing(s, step)) && Holds(t.store, q, pk, Writing(s, step)) ==> p == q)
  {
  }

  lemma OnePostfixPerValue(s: System, step: Step)
    requires Sound(s)
    ensures var t := Next(s, step);
            forall p, q, pk, v :: Holds(t.store, p, pk, v) && Holds(t.store, q, pk, v) ==> p == q
  {
    WritesOneValue(s, step);
  }

  lemma SoundStep(s: System, step: Step)
    requires Sound(s)
    ensures Sound(Next(s, step))
  {
    OnePostfixPerValue(s, step);
    ValuesStayApart(s, step);
  }

  /** Values waiting to be written are stored nowhere, and differ. */
  lemma ValuesStayApart(s: System, step: Step)
    requires Sound(s)
    ensures var t := Next(s, step);
            && (forall pid :: pid in t.calls && t.calls[pid].Invalidating? ==> Unwritten(t, t.calls[pid].value))
            && (forall a, b ::
                  && a in t.calls && b in t.calls && a != b
                  && t.calls[a].Invalidating? && t.calls[b].Invalidating?
                  ==> t.calls[a].value != t.calls[b].value)
  {
  }

  /** A spent value is never written again, and a retired postfix never comes back. */
  lemma NothingComesBack(s: System, step: Step, pk: Pk, v: Uuid)
    requires Sound(s) && Spent(s, v)
    ensures Spent(Next(s, step), v)
    ensures forall q :: Holds(Next(s, step).store, q, pk, v) ==> Holds(s.store, q, pk, v)
    ensures forall q :: Retired(s, q) ==> Retired(Next(s, step), q)
  {
  }

  lemma KnownStep(s: System, step: Step, pk: Pk, v: Uuid, w: Watch)
    requires Known(s, pk, v, w) && Undisturbed(w, step)
    ensures Known(Next(s, step), pk, v, w)
  {
    SoundStep(s, step);
    NothingComesBack(s, step, pk, v);
  }

  lemma {:induction false} KnownRun(s: System, steps: seq<Step>, i: nat, j: nat, pk: Pk, v: Uuid, w: Watch)
    requires i <= j <= |steps|
    requires Known(At(s, steps, i), pk, v, w)
    requires forall k :: i <= k < j ==> Undisturbed(w, steps[k])
    ensures Known(At(s, steps, j), pk, v, w)
  {
    if i < j {
      KnownRun(s, steps, i, j - 1, pk, v, w);
      KnownStep(At(s, steps, j - 1), steps[j - 1], pk, v, w);
    }
  }

  lemma {:induction false} SoundRun(s: System, steps: seq<Step>, i: nat)
    requires Sound(s) && i <= |steps|
    ensures Sound(At(s, steps, i))
  {
    if i > 0 {
      SoundRun(s, steps, i - 1);
      SoundStep(At(s, steps, i - 1), steps[i - 1]);
    }
  }

  /** Steps i and j of a run are the two cache accesses of one row read. */
  ghost predicate RowRead(s: System, steps: seq<Step>, pid: Pid, pk: Pk, i: nat, j: nat)
  {
    && i < j < |steps|
    && steps[i] == ReadPostfix(pid, pk) && pid !in At(s, steps, i).calls
    && steps[j] == ReadRow(pid)
    && (forall k :: i < k < j ==> steps[k] != ReadRow(pid))
  }

  /** Steps i to j of a run are an invalidation that covers the row. */
  ghost predicate Invalidation(s: System, steps: seq<Step>, pk: Pk, i: nat, j: nat)
  {
    && i <= j < |steps|
    && if i == j then steps[i] == InvalidateAll else
         && steps[i].InvalidateBegin? && Some(pk) in steps[i].pks && steps[i].pid !in At(s, steps, i).calls
         && steps[j] == InvalidateEnd(steps[i].pid)
         && (forall k :: i < k < j ==> steps[k] != InvalidateEnd(steps[i].pid))
  }

  /** A read in progress stays in progress until its second access. */
  lemma {:induction false} StillReading(s: System, steps: seq<Step>, pid: Pid, pk: Pk, i: nat, j: nat)
    requires RowRead(s, steps, pid, pk, i, j)
    ensures var c := At(s, steps, j).calls;
            pid in c && c[pid].Reading? && c[pid].pk == pk
  {
    var p := GetOrSet(At(s, steps, i).store, PostfixKey).1;
    var k := i + 1;
    while k < j
      invariant i < k <= j
      invariant pid in At(s, steps, k).calls && At(s, steps, k).calls[pid] == Reading(pk, p)
    {
      k := k + 1;
    }
  }

  lemma AfterRead(s: System, pid: Pid)
    requires Sound(s) && pid in s.calls && s.calls[pid].Reading?
    ensures Known(Next(s, ReadRow(pid)), s.calls[pid].pk, Answer(s, pid), Seen(s.calls[pid].postfix))
  {
    SoundStep(s, ReadRow(pid));
    var t := Next(s, ReadRow(pid));
    assert Holds(t.store, s.calls[pid].postfix, s.calls[pid].pk, Answer(s, pid));
  }

  /** Once the invalidation is over the value is gone, whatever happened in between. */
  lemma AfterInvalidation(s: System, steps: seq<Step>, pk: Pk, v: Uuid, p: Uuid, i: nat, j: nat)
    requires Invalidation(s, steps, pk, i, j)
    requires Known(At(s, steps, i), pk, v, Seen(p))
    ensures Known(At(s, steps, j + 1), pk, v, Gone)
  {
    var before := At(s, steps, i);
    KnownStep(before, steps[i], pk, v, Seen(p));
    if i < j {
      var pid, pks := steps[i].pid, steps[i].pks;
      var begun := At(s, steps, i + 1);
      var seen := begun.calls[pid].postfix;
      if seen == p {
        var w := Hit(p, pid, pks);
        KnownRun(s, steps, i + 1, j, pk, v, w);
        Overwritten(At(s, steps, j), pid, pk, v, p, pks);
      } else {
        assert Retired(begun, p);
        KnownRun(s, steps, i + 1, j + 1, pk, v, Gone);
      }
    }
  }

  lemma Overwritten(s: System, pid: Pid, pk: Pk, v: Uuid, p: Uuid, pks: seq<Option<Pk>>)
    requires Known(s, pk, v, Hit(p, pid, pks)) && Some(pk) in pks
    ensures Known(Next(s, InvalidateEnd(pid)), pk, v, Gone)
  {
    var t := Next(s, InvalidateEnd(pid));
    SoundStep(s, InvalidateEnd(pid));
    NothingComesBack(s, InvalidateEnd(pid), pk, v);
    var i :| 0 <= i < |pks| && pks[i] == Some(pk);
    assert RowKey(p, pk) in RowKeys(p, pks);
    assert !Holds(t.store, p, pk, v);
  }

  lemma RereadMisses(s: System, steps: seq<Step>, pk: Pk, v: Uuid, pid: Pid, i: nat, j: nat)
    requires RowRead(s, steps, pid, pk, i, j)
    requires Known(At(s, steps, i), pk, v, Gone)
    ensures var c := At(s, steps, j).calls;
            pid in c && c[pid].Reading? && c[pid].pk == pk && Answer(At(s, steps, j), pid) != v
  {
    var begun := At(s, steps, i + 1);
    KnownStep(At(s, steps, i), steps[i], pk, v, Gone);
    var q := begun.calls[pid].postfix;
    assert !Retired(begun, q);
    KnownRun(s, steps, i + 1, j, pk, v, Rereading(pid));
  }

  lemma SeenUntil(s: System, steps: seq<Step>, pk: Pk, pid: Pid, i: nat, j: nat, k: nat)
    requires Sound(s)
    requires RowRead(s, steps, pid, pk, i, j) && j < k <= |steps|
    ensures var c := At(s, steps, j).calls;
            && pid in c && c[pid].Reading?
            && Known(At(s, steps, k), pk, Answer(At(s, steps, j), pid), Seen(c[pid].postfix))
  {
    StillReading(s, steps, pid, pk, i, j);
    SoundRun(s, steps, j);
    AfterRead(At(s, steps, j), pid);
    KnownRun(s, steps, j + 1, k, pk, Answer(At(s, steps, j), pid), Seen(At(s, steps, j).calls[pid].postfix));
  }

  /** Two reads of one row never answer the same value when an invalidation covering the row
      began after the first had ended and ended before the second began: in every run, with
      any other calls interleaved and any entries lost meanwhile. */
  lemma NoRepeat(s: System, steps: seq<Step>, pk: Pk,
                 reader: Pid, a0: nat, a1: nat, i0: nat, i1: nat, rereader: Pid, b0: nat, b1: nat)
    requires Sound(s)
    requires RowRead(s, steps, reader, pk, a0, a1)
    requires Invalidation(s, steps, pk, i0, i1)
    requires RowRead(s, steps, rereader, pk, b0, b1)
    requires a1 < i0 && i1 < b0
    ensures var first, second := At(s, steps, a1), At(s, steps, b1);
            && reader in first.calls && first.calls[reader].Reading?
            && rereader in second.calls && second.calls[rereader].Reading?
            && Answer(first, reader) != Answer(second, rereader)
  {
    SeenUntil(s, steps, pk, reader, a0, a1, i0);
    var first := At(s, steps, a1);
    MissedAfter(s, steps, pk, Answer(first, reader), first.calls[reader].postfix, i0, i1, rereader, b0, b1);
  }

  lemma MissedAfter(s: System, steps: seq<Step>, pk: Pk, v: Uuid, p: Uuid, i: nat, j: nat, pid: Pid, b0: nat, b1: nat)
    requires Invalidation(s, steps, pk, i, j) && j < b0
    requires RowRead(s, steps, pid, pk, b0, b1)
    requires Known(At(s, steps, i), pk, v, Seen(p))
    ensures var c := At(s, steps, b1).calls;
            pid in c && c[pid].Reading? && Answer(At(s, steps, b1), pid) != v
  {
    AfterInvalidation(s, steps, pk, v, p, i, j);
    KnownRun(s, steps, j + 1, b0, pk, v, Gone);
    RereadMisses(s, steps, pk, v, pid, b0, b1);
  }

  /** When nothing is interleaved, the two steps of a read are the read of EtagStore. */
  lemma UninterruptedRead(s: System, pid: Pid, pk: Pk)
    requires pid !in s.calls
    ensures var begun := Next(s, ReadPostfix(pid, pk));
            && pid in begun.calls && begun.calls[pid].Reading?
            && (Next(begun, ReadRow(pid)).store, Answer(begun, pid)) == Fetch(s.store, Row(pk))
            && Next(begun, ReadRow(pid)).calls == s.calls
    ensures Next(s, ReadTable) == System(Fetch(s.store, Table).0, s.calls)
  {
  }

  /** And the two steps of an invalidation are its invalidation. */
  lemma UninterruptedInvalidation(s: System, pid: Pid, pks: seq<Option<Pk>>)
    requires pid !in s.calls
    ensures var done := Next(Next(s, InvalidateBegin(pid, pks)), InvalidateEnd(pid));
            done.store == Renew(s.store, Rows(pks)) && done.calls == s.calls
    ensures Next(s, InvalidateAll) == System(Renew(s.store, All), s.calls)
  {
    var begun := Next(s, InvalidateBegin(pid, pks));
    assert begun.calls - {pid} == s.calls;
  }

  lemma ExpiryIsEviction(s: System, keys: set<Key>)
    ensures Next(s, Expire(keys)) == System(Evict(s.store, keys), s.calls)
  {
  }

  /** The order of the calls matters: a read that saw the postfix before the invalidation may
      still answer the old value after it. */
  lemma OverlappingReadMayRepeat()
    ensures var s := System(Store(map[], 0), map[]);
            var steps := [ReadPostfix(1, 7), ReadRow(1), ReadPostfix(2, 7), InvalidateAll, ReadRow(2)];
            Sound(s) && Answer(At(s, steps, 1), 1) == Answer(At(s, steps, 4), 2)
  {
    var s := System(Store(map[], 0), map[]);
    var steps := [ReadPostfix(1, 7), ReadRow(1), ReadPostfix(2, 7), InvalidateAll, ReadRow(2)];
    assert At(s, steps, 1) == System(Store(map[PostfixKey := 0], 1), map[1 := Reading(7, 0)]);
    assert At(s, steps, 2) == System(Store(map[PostfixKey := 0, RowKey(0, 7) := 1], 2), map[]);
    assert At(s, steps, 3).calls[2] == Reading(7, 0);
    assert At(s, steps, 3).store.entries[RowKey(0, 7)] == 1;
    assert At(s, steps, 4) == Next(At(s, steps, 3), InvalidateAll);
  }
}
