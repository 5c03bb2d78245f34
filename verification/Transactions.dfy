/** Writes inside a transaction (transaction.atomic in vstutils/api/endpoint.py): the signal
    invalidates when an instance is saved, the data changes for others only when the
    transaction commits.  Every operation of a bulk request other than a GET is one, and a POST
    is one as a whole. */
module Transactions {
  import opened Common
  import opened EtagStore
  import opened HttpCache

  type Transaction = nat

  /** server.log holds what is committed; pending, what open transactions have saved. */
  datatype Database = Database(server: Server, pending: map<Transaction, seq<Write>>)

  datatype Activity =
    | Saved(t: Transaction, w: Write)
    | Committed(t: Transaction)
    | RolledBack(t: Transaction)
    | Others(e: Event)

  function PendingOf(db: Database, t: Transaction): seq<Write>
  {
    if t in db.pending then db.pending[t] else []
  }

  function Do(db: Database, a: Activity): Database
  {
    match a
    case Saved(t, w) =>
      Database(Server(Renew(db.server.store, KeysForEtagUpdate(w.signal)), db.server.log),
               db.pending[t := PendingOf(db, t) + [w]])
    case Committed(t) =>
      Database(Server(db.server.store, db.server.log + PendingOf(db, t)), db.pending - {t})
    case RolledBack(t) => db.(pending := db.pending - {t})
    case Others(e) => db.(server := Happen(db.server, e))
  }

  function DoAll(db: Database, activities: seq<Activity>): Database
  {
    if activities == [] then db else
    Do(DoAll(db, activities[..|activities| - 1]), activities[|activities| - 1])
  }

  /** The saves of a transaction, one after the other. */
  function SavesOf(t: Transaction, ws: seq<Write>): (activities: seq<Activity>)
    ensures |activities| == |ws|
  {
    seq(|ws|, i requires 0 <= i < |ws| => Saved(t, ws[i]))
  }

  /** A transaction that is committed leaves what its saves would have left without it, and one that
      is rolled back leaves the versions alone; until then the data is as it was. */
  lemma TransactionIsItsSaves(db: Database, t: Transaction, ws: seq<Write>, e: Event)
    requires t !in db.pending
    ensures var open := DoAll(db, SavesOf(t, ws));
            && open.server == Server(SaveAll(db.server, ws).store, db.server.log)
            && Do(open, Committed(t)) == Database(SaveAll(db.server, ws), db.pending)
            && Do(open, RolledBack(t)) == Database(open.server, db.pending)
    ensures Do(db, Others(e)) == Database(Happen(db.server, e), db.pending)
  {
    SavesAreKept(db, t, ws);
    SaveAllWrites(db.server, ws);
  }

  lemma {:induction false} SaveOneMore(sv: Server, ws: seq<Write>, w: Write)
    ensures SaveAll(sv, ws + [w]) == Save(SaveAll(sv, ws), w)
    decreases |ws|
  {
    assert (ws + [w])[1..] == if ws == [] then [] else ws[1..] + [w];
    if ws != [] { SaveOneMore(Save(sv, ws[0]), ws[1..], w); }
  }

  /** Where saving some writes leads: the versions are renewed, the writes are pending. */
  predicate HasSaved(db: Database, t: Transaction, ws: seq<Write>, open: Database)
  {
    && open.server == Server(SaveAll(db.server, ws).store, db.server.log)
    && PendingOf(open, t) == ws && open.pending - {t} == db.pending
  }

  lemma SavedOneMore(db: Database, t: Transaction, ws: seq<Write>, w: Write, open: Database)
    requires HasSaved(db, t, ws, open)
    ensures HasSaved(db, t, ws + [w], Do(open, Saved(t, w)))
  {
    SaveOneMore(db.server, ws, w);
  }

  lemma {:induction false} SavesAreKept(db: Database, t: Transaction, ws: seq<Write>)
    requires t !in db.pending
    ensures HasSaved(db, t, ws, DoAll(db, SavesOf(t, ws)))
    decreases |ws|
  {
    if ws != [] {
      var early, last := ws[..|ws| - 1], ws[|ws| - 1];
      SavesAreKept(db, t, early);
      SavedOneMore(db, t, early, last, DoAll(db, SavesOf(t, early)));
      assert ws == early + [last];
      assert SavesOf(t, ws)[..|ws| - 1] == SavesOf(t, early);
    }
  }

  /** Some open transaction has saved something that touches the resource. */
  predicate Awaited(db: Database, r: Resource)
  {
    exists t :: t in db.pending && History(db.pending[t], r) != []
  }

  /** Whatever is done next, a 304 to the tag and an accepted If-Match with it mean that the
      writes shown are still all the writes there are. */
  ghost predicate SafeToUse<B>(site: Site<B>, db: Database, r: Resource, tag: ETag, shown: seq<Write>)
  {
    forall activities: seq<Activity>, ws: seq<Write> :: IsHonored(site, DoAll(db, activities).server, r, tag, ws, shown)
  }

  ghost predicate IsHonored<B>(site: Site<B>, sv: Server, r: Resource, tag: ETag, ws: seq<Write>, shown: seq<Write>)
  {
    && (Handle(site, sv, Get(r, tag.context, Some(tag))).1.NotModified? ==> History(sv.log, r) == shown)
    && (Handle(site, sv, Modify(r, tag.context, Some(tag), ws)).1.Modified? ==> History(sv.log, r) == shown)
  }

  /** The version is known, and current only while nothing new is committed or saved. */
  ghost predicate Guarded(db: Database, r: Resource, version: Uuid, shown: seq<Write>)
  {
    && Valid(db.server.store) && version < db.server.store.next
    && (Current(db.server.store, SubjectOf(r)) == Some(version) ==>
          History(db.server.log, r) == shown && !Awaited(db, r))
  }

  lemma HistoryOfOne(w: Write, r: Resource)
    ensures History([w], r) == if Touches(w, r) then [w] else []
  {
    assert [w][..0] == [];
  }

  lemma SavedGuards(db: Database, t: Transaction, w: Write, r: Resource, version: Uuid, shown: seq<Write>)
    requires Guarded(db, r, version, shown)
    ensures Guarded(Do(db, Saved(t, w)), r, version, shown)
  {
    var saved := Do(db, Saved(t, w));
    InvalidationIsExact(db.server.store, KeysForEtagUpdate(w.signal), SubjectOf(r));
    HistoryOfConcat(PendingOf(db, t), [w], r);
    HistoryOfOne(w, r);
    if Current(saved.server.store, SubjectOf(r)) == Some(version) {
      forall u | u in saved.pending ensures History(saved.pending[u], r) == [] {
        assert u in db.pending ==> History(db.pending[u], r) == [];
      }
    }
  }

  lemma CommittedGuards(db: Database, t: Transaction, r: Resource, version: Uuid, shown: seq<Write>)
    requires Guarded(db, r, version, shown)
    ensures Guarded(Do(db, Committed(t)), r, version, shown)
  {
    HistoryOfConcat(db.server.log, PendingOf(db, t), r);
  }

  lemma OthersGuard(db: Database, e: Event, r: Resource, version: Uuid, shown: seq<Write>)
    requires Guarded(db, r, version, shown)
    ensures Guarded(Do(db, Others(e)), r, version, shown)
  {
    assert [e][..0] == [];
    assert HappenAll(db.server, [e]) == Happen(db.server, e);
    HappenAllFollows(db.server, [e]);
    assert SameSince(db.server, Happen(db.server, e), r);
  }

  lemma {:induction false} GuardedRun(db: Database, activities: seq<Activity>, r: Resource, version: Uuid,
                                      shown: seq<Write>)
    requires Guarded(db, r, version, shown)
    ensures Guarded(DoAll(db, activities), r, version, shown)
    decreases |activities|
  {
    if activities != [] {
      var before := DoAll(db, activities[..|activities| - 1]);
      GuardedRun(db, activities[..|activities| - 1], r, version, shown);
      match activities[|activities| - 1] {
        case Saved(t, w) => SavedGuards(before, t, w, r, version, shown);
        case Committed(t) => CommittedGuards(before, t, r, version, shown);
        case RolledBack(t) =>
        case Others(e) => OthersGuard(before, e, r, version, shown);
      }
    }
  }

  lemma GuardedIsSafe<B>(site: Site<B>, db: Database, r: Resource, tag: ETag, shown: seq<Write>)
    requires Guarded(db, r, tag.version, shown)
    ensures SafeToUse(site, db, r, tag, shown)
  {
    forall activities: seq<Activity>, ws: seq<Write>
      ensures IsHonored(site, DoAll(db, activities).server, r, tag, ws, shown)
    {
      GuardedRun(db, activities, r, tag.version, shown);
      TagTakenAsCurrent(site, DoAll(db, activities).server, r, tag, ws);
    }
  }

  /** A tag that is current can be used safely if and only if the page shows what is committed
      and no open transaction has saved anything that touches the page. */
  lemma CurrentTagIsSafeIff<B>(site: Site<B>, db: Database, r: Resource, tag: ETag, shown: seq<Write>)
    requires Valid(db.server.store) && tag.version < db.server.store.next
    requires Current(db.server.store, SubjectOf(r)) == Some(tag.version)
    ensures SafeToUse(site, db, r, tag, shown) <==> History(db.server.log, r) == shown && !Awaited(db, r)
  {
    if History(db.server.log, r) == shown && !Awaited(db, r) {
      GuardedIsSafe(site, db, r, tag, shown);
    } else if History(db.server.log, r) != shown {
      TagTakenAsCurrent(site, db.server, r, tag, []);
      assert DoAll(db, []) == db;
      assert !IsHonored(site, DoAll(db, []).server, r, tag, [], shown);
    } else {
      var t :| t in db.pending && History(db.pending[t], r) != [];
      CommitMakesStale(site, db, r, tag, shown, t);
      assert !IsHonored(site, DoAll(db, [Committed(t)]).server, r, tag, [], shown);
    }
  }

  lemma CommitMakesStale<B>(site: Site<B>, db: Database, r: Resource, tag: ETag, shown: seq<Write>, t: Transaction)
    requires Valid(db.server.store) && tag.version < db.server.store.next
    requires Current(db.server.store, SubjectOf(r)) == Some(tag.version)
    requires History(db.server.log, r) == shown && t in db.pending && History(db.pending[t], r) != []
    ensures !IsHonored(site, DoAll(db, [Committed(t)]).server, r, tag, [], shown)
  {
    assert [Committed(t)][..0] == [];
    assert DoAll(db, [Committed(t)]) == Do(db, Committed(t));
    HistoryOfConcat(db.server.log, db.pending[t], r);
    TagTakenAsCurrent(site, Do(db, Committed(t)).server, r, tag, []);
  }

  lemma {:induction false} DoAllIsValid(db: Database, activities: seq<Activity>)
    requires Valid(db.server.store)
    ensures Valid(DoAll(db, activities).server.store)
    decreases |activities|
  {
    if activities != [] {
      var before, a := DoAll(db, activities[..|activities| - 1]), activities[|activities| - 1];
      DoAllIsValid(db, activities[..|activities| - 1]);
      match a {
        case Saved(t, w) => InvalidationIsExact(before.server.store, KeysForEtagUpdate(w.signal), Table);
        case Others(e) =>
          assert [e][..0] == [];
          assert HappenAll(before.server, [e]) == Happen(before.server, e);
          HappenAllFollows(before.server, [e]);
        case _ =>
      }
    }
  }

  /** A page is rendered from what is committed, and its tag is read after some activities.  Its
      304 answers and the writes accepted with its tag are right, whatever is done next, if and
      only if no touching write was committed between body and tag, and no open transaction
      has saved one when the tag is read. */
  lemma PageIsSafeIff<B>(site: Site<B>, db: Database, r: Resource, context: Context, activities: seq<Activity>)
    requires Valid(db.server.store)
    ensures var before := DoAll(db, activities);
            var (server, tag) := ReadTag(before.server, r, context);
            SafeToUse(site, before.(server := server), r, tag, History(db.server.log, r)) <==>
              History(before.server.log, r) == History(db.server.log, r) && !Awaited(before, r)
  {
    var before := DoAll(db, activities);
    var (server, tag) := ReadTag(before.server, r, context);
    DoAllIsValid(db, activities);
    ReadIsStable(before.server.store, SubjectOf(r));
    CurrentTagIsSafeIff(site, before.(server := server), r, tag, History(db.server.log, r));
  }

  // ---- pages rendered inside a transaction ----

  /** A bulk POST also reads: its page shows what is committed and what the transaction itself has
      saved.  When the transaction has ended, the page and its tag are safe to use if and only if
      it committed or had saved nothing that touches the page, and no other open transaction
      has: a rollback takes the rows back, but not the versions. */
  lemma InsidePageIsSafeIff<B>(site: Site<B>, db: Database, t: Transaction, r: Resource, context: Context,
                               committed: bool)
    requires Valid(db.server.store) && t in db.pending
    ensures var (server, tag) := ReadTag(db.server, r, context);
            var ended := Do(db.(server := server), if committed then Committed(t) else RolledBack(t));
            SafeToUse(site, ended, r, tag, History(db.server.log + db.pending[t], r)) <==>
              && (committed || History(db.pending[t], r) == [])
              && forall u :: u in db.pending && u != t ==> History(db.pending[u], r) == []
  {
    var (server, tag) := ReadTag(db.server, r, context);
    var ended := Do(db.(server := server), if committed then Committed(t) else RolledBack(t));
    ReadIsStable(db.server.store, SubjectOf(r));
    HistoryOfConcat(db.server.log, db.pending[t], r);
    CurrentTagIsSafeIff(site, ended, r, tag, History(db.server.log + db.pending[t], r));
    OthersAwaited(db, ended, t, r);
  }

  lemma OthersAwaited(db: Database, ended: Database, t: Transaction, r: Resource)
    requires ended.pending == db.pending - {t}
    ensures Awaited(ended, r) <==> exists u :: u in db.pending && u != t && History(db.pending[u], r) != []
  {
    if u :| u in db.pending && u != t && History(db.pending[u], r) != [] {
      assert u in ended.pending && ended.pending[u] == db.pending[u];
    }
  }

  /** A bulk POST saves row 1, reads it, and is rolled back by a failing last operation: the page
      it brought back shows a write that never was, is answered 304 from then on, and lets a
      write made from it pass. */
  lemma PhantomExample<B>(site: Site<B>)
    ensures var r, w := Resource(Some(1), ""), Write(Own(1), 7);
            var open := Do(Database(Server(Store(map[], 0), []), map[]), Saved(0, w));
            var (server, tag) := ReadTag(open.server, r, "en");
            var end := Do(open.(server := server), RolledBack(0)).server;
            && History(open.server.log + PendingOf(open, 0), r) == [w] && History(end.log, r) == []
            && Handle(site, end, Get(r, "en", Some(tag))).1.NotModified?
            && Handle(site, end, Modify(r, "en", Some(tag), [])).1.Modified?
  {
    var r, w := Resource(Some(1), ""), Write(Own(1), 7);
    var open := Do(Database(Server(Store(map[], 0), []), map[]), Saved(0, w));
    var (server, tag) := ReadTag(open.server, r, "en");
    InvalidationIsExact(Store(map[], 0), KeysForEtagUpdate(Own(1)), Table);
    ReadIsStable(open.server.store, SubjectOf(r));
    HistoryOfOne(w, r);
    assert open.server.log + PendingOf(open, 0) == [w];
    TagTakenAsCurrent(site, Do(open.(server := server), RolledBack(0)).server, r, tag, []);
  }

  /** A bulk POST has saved row 1 and goes on; meanwhile the row is rendered and its tag read,
      at once; then the POST commits.  From then on the page without that write is answered
      304, and a write made from it is accepted. */
  lemma OpenTransactionExample<B>(site: Site<B>)
    ensures var r, w := Resource(Some(1), ""), Write(Own(1), 7);
            var open := Do(Database(Server(Store(map[], 0), []), map[]), Saved(0, w));
            var (server, tag) := ReadTag(open.server, r, "en");
            var end := Do(open.(server := server), Committed(0)).server;
            && History(open.server.log, r) == [] && History(end.log, r) == [w]
            && Handle(site, end, Get(r, "en", Some(tag))).1.NotModified?
            && Handle(site, end, Modify(r, "en", Some(tag), [])).1.Modified?
  {
    var r, w := Resource(Some(1), ""), Write(Own(1), 7);
    var open := Do(Database(Server(Store(map[], 0), []), map[]), Saved(0, w));
    var (server, tag) := ReadTag(open.server, r, "en");
    InvalidationIsExact(Store(map[], 0), KeysForEtagUpdate(Own(1)), Table);
    ReadIsStable(open.server.store, SubjectOf(r));
    HistoryOfOne(w, r);
    assert PendingOf(open.(server := server), 0) == [w];
    assert Do(open.(server := server), Committed(0)).server.log == [w];
    TagTakenAsCurrent(site, Do(open.(server := server), Committed(0)).server, r, tag, []);
  }
}
