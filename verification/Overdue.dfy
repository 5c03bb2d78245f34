/** Discarding overdue tasks on the first tick (_discard_overdue_tasks in
    vstutils/celery_beat_scheduler.py).  The heap is a priority queue: which of several
    smallest events it yields is left open. */
module Overdue {

  /** What the scheduler knows of its entries, which are of any type. */
  datatype Clock<!Entry> = Clock(isDue: Entry -> (bool, int), reserve: Entry -> Entry, when: (Entry, int) -> int)

  datatype Event<Entry> = Event(time: int, priority: int, entry: Entry)

  /** The order of the heap. */
  predicate NotAfter<Entry>(a: Event<Entry>, b: Event<Entry>)
  {
    a.time < b.time || (a.time == b.time && a.priority <= b.priority)
  }

  predicate Due<Entry>(clock: Clock<Entry>, e: Event<Entry>)
  {
    clock.isDue(e.entry).0
  }

  /** The event that takes the place of a discarded one. */
  function Renewed<Entry>(clock: Clock<Entry>, e: Event<Entry>): Event<Entry>
  {
    var next := clock.reserve(e.entry);
    Event(clock.when(next, clock.isDue(e.entry).1), e.priority, next)
  }

  function AllRenewed<Entry(==)>(clock: Clock<Entry>, es: seq<Event<Entry>>): multiset<Event<Entry>>
  {
    if es == [] then multiset{} else AllRenewed(clock, es[..|es| - 1]) + multiset{Renewed(clock, es[|es| - 1])}
  }

  /** The events that can be in the heap while it is worked through: those there at first, and
      what the due ones of them become. */
  ghost predicate InPlay<Entry(!new)>(clock: Clock<Entry>, before: multiset<Event<Entry>>, e: Event<Entry>)
  {
    e in before || exists d :: d in before && Due(clock, d) && e == Renewed(clock, d)
  }

  /** Among the events in play, one that is not after a due one is due. */
  ghost predicate DueAgreesWithOrder<Entry(!new)>(clock: Clock<Entry>, before: multiset<Event<Entry>>)
  {
    forall a, b :: InPlay(clock, before, a) && InPlay(clock, before, b) && NotAfter(a, b) && Due(clock, b) ==>
      Due(clock, a)
  }

  /** Reserving a due entry of the heap moves it into the future. */
  ghost predicate ReservesFuture<Entry(!new)>(clock: Clock<Entry>, before: multiset<Event<Entry>>)
  {
    forall e :: e in before && Due(clock, e) ==> !Due(clock, Renewed(clock, e))
  }

  /** A discarded event keeps its priority and gets the reserved entry, at the time computed from
      that entry and the next run time. */
  lemma RenewedOne<Entry>(clock: Clock<Entry>, e: Event<Entry>)
    ensures var next := clock.reserve(e.entry);
            AllRenewed(clock, [e]) == multiset{Event(clock.when(next, clock.isDue(e.entry).1), e.priority, next)}
  {
    assert [e][..0] == [];
  }

  lemma {:induction false} RenewedAreInTheFuture<Entry(!new)>(clock: Clock<Entry>, before: multiset<Event<Entry>>,
                                                              es: seq<Event<Entry>>)
    requires forall e :: e in es ==> Due(clock, e) && e in before
    requires ReservesFuture(clock, before)
    ensures forall e :: e in AllRenewed(clock, es) ==> InPlay(clock, before, e) && !Due(clock, e)
    ensures |AllRenewed(clock, es)| == |es|
  {
    if es != [] { RenewedAreInTheFuture(clock, before, es[..|es| - 1]); }
  }

  lemma {:induction false} SmallestExists<Entry>(heap: multiset<Event<Entry>>)
    requires heap != multiset{}
    ensures exists m :: m in heap && forall e :: e in heap ==> NotAfter(m, e)
  {
    var x :| x in heap;
    var rest := heap - multiset{x};
    assert heap == rest + multiset{x};
    if rest == multiset{} {
      assert forall e :: e in heap ==> e == x;
    } else {
      SmallestExists(rest);
      var m :| m in rest && forall e :: e in rest ==> NotAfter(m, e);
      SmallerOfBoth(heap, rest, m, x);
    }
  }

  lemma SmallerOfBoth<Entry>(heap: multiset<Event<Entry>>, rest: multiset<Event<Entry>>, m: Event<Entry>,
                             x: Event<Entry>)
    requires heap == rest + multiset{x}
    requires m in rest && forall e :: e in rest ==> NotAfter(m, e)
    ensures exists least :: least in heap && forall e :: e in heap ==> NotAfter(least, e)
  {
    var least := if NotAfter(m, x) then m else x;
    forall e | e in heap ensures NotAfter(least, e) {
      if e != x { assert e in rest; }
    }
    assert least in heap;
  }

  /** The part of a heap that is due. */
  ghost predicate IsDuePart<Entry(!new)>(clock: Clock<Entry>, heap: multiset<Event<Entry>>,
                                         part: multiset<Event<Entry>>)
  {
    forall e :: part[e] == if Due(clock, e) then heap[e] else 0
  }

  /** The books of the loop: what was taken was due, and was put back renewed; nothing was taken
      that is after an event that was not due. */
  ghost predicate Balanced<Entry(!new)>(clock: Clock<Entry>, before: multiset<Event<Entry>>,
                                        events: multiset<Event<Entry>>, discarded: seq<Event<Entry>>)
  {
    && |events| == |before|
    && events + multiset(discarded) == before + AllRenewed(clock, discarded)
    && (forall e :: e in discarded ==> Due(clock, e))
    && NoneOvertaken(clock, before, discarded)
    && (ReservesFuture(clock, before) ==> multiset(discarded) <= before)
  }

  /** An event that is not due stops whatever is after it from being taken. */
  ghost predicate NoneOvertaken<Entry(!new)>(clock: Clock<Entry>, before: multiset<Event<Entry>>,
                                             discarded: seq<Event<Entry>>)
  {
    forall a, b :: a in before && !Due(clock, a) && b in discarded ==> NotAfter(b, a)
  }

  /** What is taken is earlier than any event that is not due, or as early and of no later
      priority. */
  lemma TakenIsEarlier<Entry(!new)>(clock: Clock<Entry>, before: multiset<Event<Entry>>, discarded: seq<Event<Entry>>,
                                    a: Event<Entry>, b: Event<Entry>)
    requires NoneOvertaken(clock, before, discarded)
    requires a in before && !clock.isDue(a.entry).0 && b in discarded
    ensures b.time < a.time || (b.time == a.time && b.priority <= a.priority)
  {
  }

  ghost predicate IsSmallest<Entry(!new)>(events: multiset<Event<Entry>>, event: Event<Entry>)
  {
    event in events && forall e :: e in events ==> NotAfter(event, e)
  }

  /** Taking the smallest event, a due one: when renewed events lie in the future it was there
      at first, and is not taken more often than it was there. */
  lemma BalancedStep<Entry(!new)>(clock: Clock<Entry>, before: multiset<Event<Entry>>, events: multiset<Event<Entry>>,
                                  discarded: seq<Event<Entry>>, event: Event<Entry>)
    requires Balanced(clock, before, events, discarded)
    requires IsSmallest(events, event) && Due(clock, event)
    ensures Balanced(clock, before, events - multiset{event} + multiset{Renewed(clock, event)}, discarded + [event])
  {
    BooksStep(clock, before, events, discarded, event);
    forall a | a in before && !Due(clock, a) ensures NotAfter(event, a) {
      NotDueStays(clock, before, events, discarded, a);
    }
    if ReservesFuture(clock, before) {
      TakenWasThere(clock, before, events, discarded, event);
    }
  }

  lemma NotDueStays<Entry(!new)>(clock: Clock<Entry>, before: multiset<Event<Entry>>, events: multiset<Event<Entry>>,
                                 discarded: seq<Event<Entry>>, a: Event<Entry>)
    requires Balanced(clock, before, events, discarded)
    requires a in before && !Due(clock, a)
    ensures a in events
  {
    assert (events + multiset(discarded))[a] == (before + AllRenewed(clock, discarded))[a];
    assert a !in multiset(discarded);
  }

  lemma TakenAreFromBefore<Entry(!new)>(clock: Clock<Entry>, before: multiset<Event<Entry>>,
                                        events: multiset<Event<Entry>>, discarded: seq<Event<Entry>>)
    requires ReservesFuture(clock, before) && Balanced(clock, before, events, discarded)
    ensures forall e :: e in AllRenewed(clock, discarded) ==> InPlay(clock, before, e) && !Due(clock, e)
    ensures |AllRenewed(clock, discarded)| == |discarded|
  {
    forall e | e in discarded ensures e in before { assert e in multiset(discarded); }
    RenewedAreInTheFuture(clock, before, discarded);
  }

  lemma TakenWasThere<Entry(!new)>(clock: Clock<Entry>, before: multiset<Event<Entry>>, events: multiset<Event<Entry>>,
                                   discarded: seq<Event<Entry>>, event: Event<Entry>)
    requires ReservesFuture(clock, before) && Balanced(clock, before, events, discarded)
    requires event in events && Due(clock, event)
    ensures multiset(discarded + [event]) <= before
  {
    TakenAreFromBefore(clock, before, events, discarded);
    assert multiset(discarded + [event]) == multiset(discarded) + multiset{event};
    assert (events + multiset(discarded))[event] == (before + AllRenewed(clock, discarded))[event];
  }

  lemma BooksStep<Entry(!new)>(clock: Clock<Entry>, before: multiset<Event<Entry>>, events: multiset<Event<Entry>>,
                               discarded: seq<Event<Entry>>, event: Event<Entry>)
    requires events + multiset(discarded) == before + AllRenewed(clock, discarded) && event in events
    ensures var after := events - multiset{event} + multiset{Renewed(clock, event)};
            && |after| == |events|
            && after + multiset(discarded + [event]) == before + AllRenewed(clock, discarded + [event])
  {
    var renewed := multiset{Renewed(clock, event)};
    var after := events - multiset{event} + renewed;
    assert (discarded + [event])[..|discarded|] == discarded;
    assert events == (events - multiset{event}) + multiset{event};
    assert multiset(discarded + [event]) == multiset(discarded) + multiset{event};
    assert after + multiset(discarded + [event]) == (events + multiset(discarded)) + renewed;
  }

  /** When nothing in the heap is due any more, the discarded are the due ones. */
  lemma NoneDueMeansExact<Entry(!new)>(clock: Clock<Entry>, before: multiset<Event<Entry>>,
                                       events: multiset<Event<Entry>>, discarded: seq<Event<Entry>>)
    requires ReservesFuture(clock, before) && Balanced(clock, before, events, discarded)
    requires NoneDue(clock, events)
    ensures IsDuePart(clock, before, multiset(discarded))
  {
    TakenAreFromBefore(clock, before, events, discarded);
    forall e ensures multiset(discarded)[e] == if Due(clock, e) then before[e] else 0 {
      assert (events + multiset(discarded))[e] == (before + AllRenewed(clock, discarded))[e];
      assert e in multiset(discarded) ==> e in discarded;
    }
  }

  ghost predicate NoneDue<Entry(!new)>(clock: Clock<Entry>, events: multiset<Event<Entry>>)
  {
    forall e :: e in events ==> !Due(clock, e)
  }

  /** Only events in play are in the heap; so when its smallest is not due, none is. */
  lemma StoppedMeansNoneDue<Entry(!new)>(clock: Clock<Entry>, before: multiset<Event<Entry>>,
                                         events: multiset<Event<Entry>>, discarded: seq<Event<Entry>>,
                                         event: Event<Entry>)
    requires DueAgreesWithOrder(clock, before) && ReservesFuture(clock, before)
    requires Balanced(clock, before, events, discarded)
    requires IsSmallest(events, event) && !Due(clock, event)
    ensures NoneDue(clock, events)
  {
    TakenAreFromBefore(clock, before, events, discarded);
    forall e | e in events ensures InPlay(clock, before, e) {
      assert (events + multiset(discarded))[e] == (before + AllRenewed(clock, discarded))[e];
    }
    forall e | e in events ensures !Due(clock, e) { assert NotAfter(event, e); }
  }

  /** As many taken as there were: then the heap holds nothing but renewed events. */
  lemma AllTaken<Entry(!new)>(clock: Clock<Entry>, before: multiset<Event<Entry>>, events: multiset<Event<Entry>>,
                              discarded: seq<Event<Entry>>)
    requires ReservesFuture(clock, before) && Balanced(clock, before, events, discarded) && |discarded| == |before|
    ensures NoneDue(clock, events)
  {
    TakenAreFromBefore(clock, before, events, discarded);
    assert before == multiset(discarded) + (before - multiset(discarded));
    assert |multiset(discarded)| == |discarded|;
    forall e | e in events ensures e in AllRenewed(clock, discarded) {
      assert (events + multiset(discarded))[e] == (before + AllRenewed(clock, discarded))[e];
    }
  }

  /** The loop ends on an event that is not due, or has gone once through the heap. */
  lemma EndIsExact<Entry(!new)>(clock: Clock<Entry>, before: multiset<Event<Entry>>, events: multiset<Event<Entry>>,
                                discarded: seq<Event<Entry>>)
    requires DueAgreesWithOrder(clock, before) && ReservesFuture(clock, before)
    requires Balanced(clock, before, events, discarded)
    requires |discarded| == |before| || exists event :: IsSmallest(events, event) && !Due(clock, event)
    ensures IsDuePart(clock, before, multiset(discarded)) && NoneDue(clock, events)
  {
    if |discarded| == |before| {
      AllTaken(clock, before, events, discarded);
    } else {
      var event :| IsSmallest(events, event) && !Due(clock, event);
      StoppedMeansNoneDue(clock, before, events, discarded, event);
    }
    NoneDueMeansExact(clock, before, events, discarded);
  }

  // ---- clocks that tell the time ----

  /** An entry is due exactly when the time of its event has come, for the events in play. */
  ghost predicate TellsTime<Entry(!new)>(clock: Clock<Entry>, before: multiset<Event<Entry>>, now: int)
  {
    forall e :: InPlay(clock, before, e) ==> (Due(clock, e) <==> e.time <= now)
  }

  /** Then due agrees with the order of the heap. */
  lemma TimeAgreesWithOrder<Entry(!new)>(clock: Clock<Entry>, before: multiset<Event<Entry>>, now: int)
    requires TellsTime(clock, before, now)
    ensures DueAgreesWithOrder(clock, before)
  {
  }

  /** Entries that are the time they are next due, every ten seconds, seen at time 0. */
  const EVERY_TEN_SECONDS: Clock<int> := Clock(t => (t <= 0, if t <= 0 then 10 else t), t => t + 10, (t, n) => t)

  /** A heap with an overdue event, one due now and one due later, which meets both conditions. */
  lemma OverdueHeap()
    ensures var before := multiset{Event(-3, 5, -3), Event(0, 5, 0), Event(4, 5, 4)};
            && Due(EVERY_TEN_SECONDS, Event(-3, 5, -3)) && Due(EVERY_TEN_SECONDS, Event(0, 5, 0))
            && !Due(EVERY_TEN_SECONDS, Event(4, 5, 4))
            && DueAgreesWithOrder(EVERY_TEN_SECONDS, before) && ReservesFuture(EVERY_TEN_SECONDS, before)
  {
    var before := multiset{Event(-3, 5, -3), Event(0, 5, 0), Event(4, 5, 4)};
    assert TellsTime(EVERY_TEN_SECONDS, before, 0);
    TimeAgreesWithOrder(EVERY_TEN_SECONDS, before, 0);
  }

  // ---- the loop ----

  class Scheduler<Entry(==,!new)> {
    const clock: Clock<Entry>
    const maxInterval: nat
    var events: multiset<Event<Entry>>

    constructor (clock: Clock<Entry>, maxInterval: nat, events: multiset<Event<Entry>>)
      ensures this.clock == clock && this.maxInterval == maxInterval && this.events == events
    {
      this.clock := clock;
      this.maxInterval := maxInterval;
      this.events := events;
    }

    /** discarded lists the events taken from the heap, in order.  On every heap only due events
        are taken, none that is after one that is not due, and each is put back renewed, so the
        size stays.  When, among the events in play, due agrees with the order of the heap and
        reserving leads into the future, these are exactly the events due at first, each as
        often as it was there, and no event in the heap is due any more. */
    method DiscardOverdueTasks() returns (delay: nat, discarded: seq<Event<Entry>>)
      modifies this`events
      ensures delay == if old(events) == multiset{} then maxInterval else 0
      ensures |events| == |old(events)|
      ensures events + multiset(discarded) == old(events) + AllRenewed(clock, discarded)
      ensures forall e :: e in discarded ==> Due(clock, e)
      ensures NoneOvertaken(clock, old(events), discarded)
      ensures DueAgreesWithOrder(clock, old(events)) && ReservesFuture(clock, old(events)) ==>
                IsDuePart(clock, old(events), multiset(discarded)) && NoneDue(clock, events)
    {
      discarded := [];
      if events == multiset{} {
        return maxInterval, discarded;
      }
      ghost var before := events;
      var count := |events|;
      delay := 0;
      for i := 0 to count
        invariant |discarded| == i && Balanced(clock, before, events, discarded)
      {
        SmallestExists(events);
        var event :| event in events && forall e :: e in events ==> NotAfter(event, e);
        assert IsSmallest(events, event);
        var (isDue, nextTimeToRun) := clock.isDue(event.entry);
        if !isDue {
          break;
        }
        BalancedStep(clock, before, events, discarded, event);
        events := events - multiset{event};
        var next := clock.reserve(event.entry);
        events := events + multiset{Event(clock.when(next, nextTimeToRun), event.priority, next)};
        discarded := discarded + [event];
      }
      if DueAgreesWithOrder(clock, before) && ReservesFuture(clock, before) {
        EndIsExact(clock, before, events, discarded);
      }
    }
  }
}
