/** Debounced batching of single API calls (bulkApiFetch and sendCollectedBulks in
    frontend_src/vstutils/bulk.ts), with any number of batches in flight. */
module BulkBatching {
  import opened Common

  /** Calls are numbered in the order they are made. */
  type Call = nat

  type Timer = nat

  /** What a batch brings back: the list of responses, the error that was thrown, or JSON that
      has no length, such as the {"detail": ...} of a refused request; the status of the reply is
      not looked at. */
  datatype Answer<R> = Responses(responses: seq<R>) | Failure(error: string) | Unlisted

  datatype Settlement<R> = Resolved(response: R) | Rejected(error: string)

  const MISMATCH := "Responses count does not match requests count"

  /** A batch that was sent, and its answer once it came. */
  datatype Batch<R> = Batch(requests: seq<Call>, answer: Option<Answer<R>>)

  /** timers are those that will still fire; handle is the one a new call clears. */
  datatype State<R> = State(calls: nat, collected: seq<Call>, timers: set<Timer>, handle: Option<Timer>,
                            nextTimer: Timer,
                            batches: seq<Batch<R>>, settled: map<Call, Settlement<R>>)

  datatype Event<R> = Fetch | Fire(t: Timer) | Reply(k: nat, answer: Answer<R>)

  /** What position i of a batch of n gets from an answer. */
  function Share<R>(answer: Answer<R>, n: nat, i: nat): Settlement<R>
    requires i < n && !answer.Unlisted?
  {
    match answer
    case Failure(e) => Rejected(e)
    case Responses(rs) => if |rs| < n then Rejected(MISMATCH) else Resolved(rs[i])
  }

  /** Settling a promise that is already settled has no effect. */
  function Settle<R>(settled: map<Call, Settlement<R>>, c: Call, s: Settlement<R>): map<Call, Settlement<R>>
  {
    if c in settled then settled else settled[c := s]
  }

  /** The calls of a batch settled one after the other, each with its position's share. */
  function SettleBatch<R>(settled: map<Call, Settlement<R>>, requests: seq<Call>, answer: Answer<R>,
                          i: nat): map<Call, Settlement<R>>
    requires i <= |requests| && !answer.Unlisted?
  {
    if i == 0 then settled else
    Settle(SettleBatch(settled, requests, answer, i - 1), requests[i - 1], Share(answer, |requests|, i - 1))
  }

  /** Without a length nothing is compared and nothing is gone through: no call is settled. */
  function SettleAnswered<R>(settled: map<Call, Settlement<R>>, requests: seq<Call>, answer: Answer<R>)
    : map<Call, Settlement<R>>
  {
    if answer.Unlisted? then settled else SettleBatch(settled, requests, answer, |requests|)
  }

  function Next<R>(s: State<R>, e: Event<R>): State<R>
  {
    match e
    case Fetch =>
      s.(calls := s.calls + 1, collected := s.collected + [s.calls],
         timers := (if s.handle.Some? then s.timers - {s.handle.value} else s.timers) + {s.nextTimer},
         handle := Some(s.nextTimer), nextTimer := s.nextTimer + 1)
    case Fire(t) =>
      if t !in s.timers then s else
      s.(collected := [], timers := s.timers - {t}, batches := s.batches + [Batch(s.collected, None)])
    case Reply(k, answer) =>
      if k >= |s.batches| || s.batches[k].answer.Some? then s else
      s.(batches := s.batches[k := s.batches[k].(answer := Some(answer))],
         settled := SettleAnswered(s.settled, s.batches[k].requests, answer))
  }

  function Initial<R>(): State<R>
  {
    State(0, [], {}, None, 0, [], map[])
  }

  function After<R>(events: seq<Event<R>>, i: nat): State<R>
    requires i <= |events|
  {
    if i == 0 then Initial() else Next(After(events, i - 1), events[i - 1])
  }

  // ---- what holds in every run ----

  /** The number of calls in the first k batches. */
  function Offset<R>(batches: seq<Batch<R>>, k: nat): nat
    requires k <= |batches|
  {
    if k == 0 then 0 else Offset(batches, k - 1) + |batches[k - 1].requests|
  }

  ghost predicate IsRange(calls: seq<Call>, first: nat)
  {
    forall i :: 0 <= i < |calls| ==> calls[i] == first + i
  }

  ghost predicate InBatchOrder<R>(batches: seq<Batch<R>>)
  {
    forall k :: 0 <= k < |batches| ==> IsRange(batches[k].requests, Offset(batches, k))
  }

  /** The batches in the order they were sent, and then what is collected, are all calls in the
      order they were made: each call is in exactly one place. */
  ghost predicate InCallOrder<R>(s: State<R>)
  {
    && InBatchOrder(s.batches)
    && IsRange(s.collected, Offset(s.batches, |s.batches|))
    && s.calls == Offset(s.batches, |s.batches|) + |s.collected|
  }

  /** Collected calls wait for exactly one timer, the one a new call would clear; when nothing
      is collected no timer is waiting. */
  predicate TimerArmed<R>(s: State<R>)
  {
    && (if s.collected == [] then s.timers == {} else s.handle.Some? && s.timers == {s.handle.value})
    && (s.handle.Some? ==> s.handle.value < s.nextTimer)
  }

  /** A call is settled exactly when its batch was answered with a list or an error, with its
      position's share. */
  ghost predicate SettledByShare<R>(s: State<R>)
  {
    && (forall k, i :: 0 <= k < |s.batches| && 0 <= i < |s.batches[k].requests| ==> Placed(s, k, i))
    && (forall c :: c in s.settled ==> c < Offset(s.batches, |s.batches|))
  }

  ghost predicate Placed<R>(s: State<R>, k: nat, i: nat)
    requires k < |s.batches| && i < |s.batches[k].requests|
  {
    var b := s.batches[k];
    if b.answer.None? || b.answer.value.Unlisted? then b.requests[i] !in s.settled
    else b.requests[i] in s.settled && s.settled[b.requests[i]] == Share(b.answer.value, |b.requests|, i)
  }

  ghost predicate Sound<R>(s: State<R>)
  {
    InCallOrder(s) && TimerArmed(s) && SettledByShare(s)
  }

  lemma {:induction false} OffsetGrows<R>(batches: seq<Batch<R>>, k: nat, m: nat)
    requires k <= m <= |batches|
    ensures Offset(batches, k) <= Offset(batches, m)
    ensures k < m ==> Offset(batches, k) + |batches[k].requests| <= Offset(batches, m)
  {
    if k < m { OffsetGrows(batches, k, m - 1); }
  }

  lemma {:induction false} SameOffsets<R>(a: seq<Batch<R>>, b: seq<Batch<R>>, k: nat)
    requires k <= |a| && k <= |b|
    requires forall i :: 0 <= i < k ==> a[i].requests == b[i].requests
    ensures Offset(a, k) == Offset(b, k)
  {
    if k > 0 { SameOffsets(a, b, k - 1); }
  }

  lemma {:induction false} SettleBatchAddsShares<R>(settled: map<Call, Settlement<R>>, requests: seq<Call>,
                                                    answer: Answer<R>, first: nat, i: nat)
    requires IsRange(requests, first) && i <= |requests| && !answer.Unlisted?
    requires forall j :: 0 <= j < |requests| ==> requests[j] !in settled
    ensures var after := SettleBatch(settled, requests, answer, i);
            && (forall c :: c in after <==> c in settled || first <= c < first + i)
            && (forall c :: c in settled ==> after[c] == settled[c])
            && (forall j :: 0 <= j < i ==> after[requests[j]] == Share(answer, |requests|, j))
  {
    if i > 0 { SettleBatchAddsShares(settled, requests, answer, first, i - 1); }
  }

  lemma ReplyKeepsSound<R>(s: State<R>, k: nat, answer: Answer<R>)
    requires Sound(s) && k < |s.batches| && s.batches[k].answer.None?
    ensures Sound(Next(s, Reply(k, answer)))
  {
    var t := Next(s, Reply(k, answer));
    var requests, first := s.batches[k].requests, Offset(s.batches, k);
    forall m | 0 <= m <= |s.batches| ensures Offset(t.batches, m) == Offset(s.batches, m) {
      SameOffsets(t.batches, s.batches, m);
    }
    forall j | 0 <= j < |requests| ensures requests[j] !in s.settled {
      assert Placed(s, k, j);
    }
    if !answer.Unlisted? { SettleBatchAddsShares(s.settled, requests, answer, first, |requests|); }
    OffsetGrows(s.batches, k, |s.batches|);
    forall m, i | 0 <= m < |t.batches| && 0 <= i < |t.batches[m].requests| ensures Placed(t, m, i) {
      assert Placed(s, m, i);
      if m < k { OffsetGrows(s.batches, m, k); }
      if k < m { OffsetGrows(s.batches, k, m); }
    }
  }

  /** What the calls of a batch get when the reply comes: call i gets response i, or all get the
      error, or the complaint that there are too few responses. */
  lemma ReplyGives<R>(s: State<R>, k: nat, answer: Answer<R>, i: nat)
    requires Sound(s) && k < |s.batches| && s.batches[k].answer.None? && i < |s.batches[k].requests|
    requires !answer.Unlisted?
    ensures var settled, call := Next(s, Reply(k, answer)).settled, s.batches[k].requests[i];
            && call in settled
            && (answer.Responses? && |answer.responses| >= |s.batches[k].requests| ==>
                  settled[call] == Resolved(answer.responses[i]))
            && (answer.Responses? && |answer.responses| < |s.batches[k].requests| ==>
                  settled[call] == Rejected("Responses count does not match requests count"))
            && (answer.Failure? ==> settled[call] == Rejected(answer.error))
  {
    ReplyKeepsSound(s, k, answer);
    assert Placed(Next(s, Reply(k, answer)), k, i);
  }

  lemma AppendKeepsOrder<R>(batches: seq<Batch<R>>, last: Batch<R>)
    requires InBatchOrder(batches) && IsRange(last.requests, Offset(batches, |batches|))
    ensures InBatchOrder(batches + [last])
  {
    var more := batches + [last];
    forall k | 0 <= k < |more| ensures IsRange(more[k].requests, Offset(more, k)) {
      AppendKeepsRange(batches, last, k);
    }
  }

  lemma AppendKeepsRange<R>(batches: seq<Batch<R>>, last: Batch<R>, k: nat)
    requires k <= |batches| && IsRange(if k < |batches| then batches[k].requests else last.requests, Offset(batches, k))
    ensures IsRange((batches + [last])[k].requests, Offset(batches + [last], k))
  {
    var more := batches + [last];
    SameOffsets(more, batches, k);
    assert more[k] == if k < |batches| then batches[k] else last;
  }

  lemma FireKeepsOrder<R>(s: State<R>, timer: Timer)
    requires InCallOrder(s) && timer in s.timers
    ensures InCallOrder(Next(s, Fire(timer)))
  {
    AppendKeepsOrder(s.batches, Batch(s.collected, None));
    AppendedOffsets(s.batches, Batch(s.collected, None));
  }

  lemma FireKeepsShares<R>(s: State<R>, timer: Timer)
    requires IsRange(s.collected, Offset(s.batches, |s.batches|)) && SettledByShare(s) && timer in s.timers
    ensures SettledByShare(Next(s, Fire(timer)))
  {
    var t := Next(s, Fire(timer));
    AppendedOffsets(s.batches, Batch(s.collected, None));
    forall m, i | 0 <= m < |t.batches| && 0 <= i < |t.batches[m].requests| ensures Placed(t, m, i) {
      if m < |s.batches| { assert Placed(s, m, i); }
    }
  }

  lemma FireKeepsSound<R>(s: State<R>, timer: Timer)
    requires Sound(s) && timer in s.timers
    ensures Sound(Next(s, Fire(timer)))
  {
    FireKeepsOrder(s, timer);
    FireKeepsShares(s, timer);
  }

  lemma AppendedOffsets<R>(batches: seq<Batch<R>>, b: Batch<R>)
    ensures forall m :: 0 <= m <= |batches| ==> Offset(batches + [b], m) == Offset(batches, m)
    ensures Offset(batches + [b], |batches| + 1) == Offset(batches, |batches|) + |b.requests|
  {
    forall m | 0 <= m <= |batches| ensures Offset(batches + [b], m) == Offset(batches, m) {
      SameOffsets(batches + [b], batches, m);
    }
  }

  lemma FetchKeepsSound<R>(s: State<R>)
    requires Sound(s)
    ensures Sound(Next(s, Fetch))
  {
    var t := Next(s, Fetch);
    forall m, i | 0 <= m < |t.batches| && 0 <= i < |t.batches[m].requests| ensures Placed(t, m, i) {
      assert Placed(s, m, i);
    }
  }

  lemma SoundStep<R>(s: State<R>, e: Event<R>)
    requires Sound(s)
    ensures Sound(Next(s, e))
  {
    match e {
      case Fetch => FetchKeepsSound(s);
      case Fire(t) => if t in s.timers { FireKeepsSound(s, t); }
      case Reply(k, answer) => if k < |s.batches| && s.batches[k].answer.None? { ReplyKeepsSound(s, k, answer); }
    }
  }

  lemma InitialIsSound<R>()
    ensures Sound(Initial<R>())
  {
  }

  lemma {:induction false} EveryRunIsSound<R>(events: seq<Event<R>>, i: nat)
    requires i <= |events|
    ensures Sound(After(events, i))
  {
    if i == 0 {
      InitialIsSound<R>();
    } else {
      EveryRunIsSound(events, i - 1);
      SoundStep(After(events, i - 1), events[i - 1]);
    }
  }

  /** A settled call is never settled again, whatever comes. */
  lemma SettledOnce<R>(s: State<R>, e: Event<R>)
    ensures forall c :: c in s.settled ==> c in Next(s, e).settled && Next(s, e).settled[c] == s.settled[c]
  {
    if e.Reply? && e.k < |s.batches| && s.batches[e.k].answer.None? && !e.answer.Unlisted? {
      SettleBatchKeeps(s.settled, s.batches[e.k].requests, e.answer, |s.batches[e.k].requests|);
    }
  }

  lemma {:induction false} SettleBatchKeeps<R>(settled: map<Call, Settlement<R>>, requests: seq<Call>,
                                               answer: Answer<R>, i: nat)
    requires i <= |requests| && !answer.Unlisted?
    ensures var after := SettleBatch(settled, requests, answer, i);
            forall c :: c in settled ==> c in after && after[c] == settled[c]
  {
    if i > 0 { SettleBatchKeeps(settled, requests, answer, i - 1); }
  }

  /** Where a call is in a state. */
  datatype Place = Collected | InFlight(k: nat, i: nat) | Answered(k: nat, i: nat)

  ghost predicate IsAt<R>(s: State<R>, c: Call, p: Place)
  {
    match p
    case Collected => c in s.collected
    case InFlight(k, i) => IsSent(s, c, k, i) && s.batches[k].answer.None?
    case Answered(k, i) => IsSent(s, c, k, i) && s.batches[k].answer.Some?
  }

  ghost predicate IsSent<R>(s: State<R>, c: Call, k: nat, i: nat)
  {
    k < |s.batches| && i < |s.batches[k].requests| && s.batches[k].requests[i] == c
  }

  lemma {:induction false} FindBatch<R>(batches: seq<Batch<R>>, c: Call, n: nat) returns (k: nat)
    requires n <= |batches| && c < Offset(batches, n)
    ensures k < n && Offset(batches, k) <= c < Offset(batches, k) + |batches[k].requests|
  {
    k := n - 1;
    if c < Offset(batches, k) { k := FindBatch(batches, c, k); }
  }

  /** In every run, with any number of batches in flight and answers in any order: every call
      made so far is in exactly one place, collected, in one position of one batch in flight,
      or in one position of one answered batch; it is settled exactly in the last case and when
      the answer is a list or an error, with that position's response or that batch's error; and
      as long as any call is collected there is exactly one timer to send it. */
  lemma EveryCallHasOnePlace<R>(events: seq<Event<R>>, n: nat, c: Call)
    requires n <= |events| && c < After(events, n).calls
    ensures var s := After(events, n);
            exists p :: && IsAt(s, c, p)
                        && (forall q :: IsAt(s, c, q) ==> q == p)
                        && (c in s.settled <==> p.Answered? && !s.batches[p.k].answer.value.Unlisted?)
                        && (c in s.settled ==>
                              var answer, n := s.batches[p.k].answer.value, |s.batches[p.k].requests|;
                              && (answer.Responses? && |answer.responses| >= n ==>
                                    s.settled[c] == Resolved(answer.responses[p.i]))
                              && (answer.Responses? && |answer.responses| < n ==>
                                    s.settled[c] == Rejected("Responses count does not match requests count"))
                              && (answer.Failure? ==> s.settled[c] == Rejected(answer.error)))
                        && (p.Collected? ==> |s.timers| == 1)
  {
    EveryRunIsSound(events, n);
    var s := After(events, n);
    var end := Offset(s.batches, |s.batches|);
    if c < end {
      var k := FindBatch(s.batches, c, |s.batches|);
      var i := c - Offset(s.batches, k);
      assert Placed(s, k, i);
      var p := if s.batches[k].answer.None? then InFlight(k, i) else Answered(k, i);
      assert IsAt(s, c, p);
      forall q | IsAt(s, c, q) ensures q == p { OnlyPlace(s, c, k, i, q); }
    } else {
      assert s.collected[c - end] == c;
      assert IsAt(s, c, Collected);
      forall q | IsAt(s, c, q) ensures q == Collected {
        if !q.Collected? { OffsetGrows(s.batches, q.k, |s.batches|); }
      }
    }
  }

  lemma OnlyPlace<R>(s: State<R>, c: Call, k: nat, i: nat, q: Place)
    requires InCallOrder(s) && k < |s.batches| && i < |s.batches[k].requests| && s.batches[k].requests[i] == c
    requires IsAt(s, c, q)
    ensures !q.Collected? && q.k == k && q.i == i
  {
    OffsetGrows(s.batches, k, |s.batches|);
    if !q.Collected? {
      if q.k < k { OffsetGrows(s.batches, q.k, k); }
      if k < q.k { OffsetGrows(s.batches, k, q.k); }
    }
  }

  lemma {:induction false} AnswersStay<R>(events: seq<Event<R>>, n: nat, m: nat, k: nat)
    requires n <= m <= |events| && k < |After(events, n).batches| && After(events, n).batches[k].answer.Some?
    ensures k < |After(events, m).batches| && After(events, m).batches[k] == After(events, n).batches[k]
  {
    if n < m { AnswersStay(events, n, m - 1, k); }
  }

  /** The calls of a batch whose answer has no length are never settled, whatever comes: those
      who wait for them wait forever. */
  lemma UnlistedIsForever<R>(events: seq<Event<R>>, n: nat, m: nat, k: nat)
    requires n <= m <= |events| && k < |After(events, n).batches|
    requires After(events, n).batches[k].answer == Some(Unlisted)
    ensures forall c :: c in After(events, n).batches[k].requests ==> c !in After(events, m).settled
  {
    AnswersStay(events, n, m, k);
    EveryRunIsSound(events, m);
    forall c | c in After(events, n).batches[k].requests ensures c !in After(events, m).settled {
      var i :| 0 <= i < |After(events, m).batches[k].requests| && After(events, m).batches[k].requests[i] == c;
      assert Placed(After(events, m), k, i);
    }
  }

  /** One call, and its batch is refused because the token has expired: the reply is the object
      of a 401.  The batch is over, nothing is collected, and call 0 is never settled. */
  lemma RefusedExample<R>(later: seq<Event<R>>)
    ensures var events := [Fetch, Fire(0), Reply(0, Unlisted)] + later;
            && After(events, 3).batches == [Batch([0], Some(Unlisted))] && After(events, 3).collected == []
            && 0 !in After(events, |events|).settled
  {
    var events := [Fetch, Fire(0), Reply(0, Unlisted)] + later;
    assert events[0] == Fetch && events[1] == Fire(0) && events[2] == Reply(0, Unlisted);
    var fetched := Next(Initial<R>(), Fetch);
    assert fetched.collected == [0] && 0 in fetched.timers;
    assert After(events, 1) == fetched;
    var sent := Next(fetched, Fire(0));
    assert sent.batches == [Batch([0], None)] && sent.collected == [];
    assert After(events, 2) == sent;
    assert After(events, 3) == Next(sent, Reply(0, Unlisted));
    UnlistedIsForever(events, 3, |events|, 0);
    assert 0 in After(events, 3).batches[0].requests;
  }

  // ---- the closure as an object ----

  class BulkApi<R> {
    var calls: nat
    var collectedBulks: seq<Call>
    var timers: set<Timer>
    var sendCollectedBulksTimeoutId: Option<Timer>
    var nextTimer: Timer
    var batches: seq<Batch<R>>
    var settled: map<Call, Settlement<R>>

    ghost function Now(): State<R>
      reads this
    {
      State(calls, collectedBulks, timers, sendCollectedBulksTimeoutId, nextTimer, batches, settled)
    }

    constructor ()
      ensures Now() == Initial()
    {
      calls, collectedBulks, timers := 0, [], {};
      sendCollectedBulksTimeoutId, nextTimer := None, 0;
      batches, settled := [], map[];
    }

    method BulkApiFetch() returns (call: Call)
      modifies this
      ensures Now() == Next(old(Now()), Fetch) && call == old(calls)
    {
      if sendCollectedBulksTimeoutId.Some? {
        timers := timers - {sendCollectedBulksTimeoutId.value};
      }
      call := calls;
      calls := calls + 1;
      collectedBulks := collectedBulks + [call];
      timers := timers + {nextTimer};
      sendCollectedBulksTimeoutId := Some(nextTimer);
      nextTimer := nextTimer + 1;
    }

    /** The timer fires: sendCollectedBulks up to its await. */
    method SendCollectedBulks(timer: Timer)
      requires timer in timers
      modifies this
      ensures Now() == Next(old(Now()), Fire(timer))
    {
      timers := timers - {timer};
      var bulks := collectedBulks;
      collectedBulks := [];
      batches := batches + [Batch(bulks, None)];
    }

    /** The batch's request is over: sendCollectedBulks after its await.  More responses than
        requests make the loop fail after its last call, and then rejecting changes nothing.  An
        answer without a length ends the loop before it begins. */
    method Receive(k: nat, answer: Answer<R>)
      requires k < |batches| && batches[k].answer.None?
      modifies this
      ensures Now() == Next(old(Now()), Reply(k, answer))
      ensures Sound(old(Now())) && answer.Responses? && |answer.responses| >= |batches[k].requests| ==>
                forall i :: 0 <= i < |batches[k].requests| ==>
                  batches[k].requests[i] in settled && settled[batches[k].requests[i]] == Resolved(answer.responses[i])
      ensures Sound(old(Now())) && answer.Responses? && |answer.responses| < |batches[k].requests| ==>
                forall c :: c in batches[k].requests ==>
                  c in settled && settled[c] == Rejected("Responses count does not match requests count")
      ensures Sound(old(Now())) && answer.Failure? ==>
                forall c :: c in batches[k].requests ==> c in settled && settled[c] == Rejected(answer.error)
    {
      ghost var was := Now();
      if Sound(was) && !answer.Unlisted? {
        forall i | 0 <= i < |was.batches[k].requests|
          ensures var gives, call := Next(was, Reply(k, answer)).settled, was.batches[k].requests[i];
                  && call in gives
                  && (answer.Responses? && |answer.responses| >= |was.batches[k].requests| ==>
                        gives[call] == Resolved(answer.responses[i]))
                  && (answer.Responses? && |answer.responses| < |was.batches[k].requests| ==>
                        gives[call] == Rejected("Responses count does not match requests count"))
                  && (answer.Failure? ==> gives[call] == Rejected(answer.error))
        {
          ReplyGives(was, k, answer, i);
        }
      }
      var bulks := batches[k].requests;
      batches := batches[k := batches[k].(answer := Some(answer))];
      SettleBulks(bulks, answer);
    }

    /** The loop over the results, and the handler around it. */
    method SettleBulks(bulks: seq<Call>, answer: Answer<R>)
      modifies this`settled
      ensures settled == SettleAnswered(old(settled), bulks, answer)
    {
      ghost var before := settled;
      var thrown: Option<string> := None;
      match answer {
        case Failure(e) => thrown := Some(e);
        case Unlisted =>
        case Responses(results) =>
          if |results| < |bulks| {
            thrown := Some(MISMATCH);
          } else {
            for idx := 0 to |bulks|
              invariant settled == SettleBatch(before, bulks, answer, idx)
            {
              settled := Settle(settled, bulks[idx], Resolved(results[idx]));
            }
            if |results| > |bulks| {
              RejectSettled(before, bulks, answer);
              RejectAll(bulks, "undefined is not an object");
            }
          }
      }
      if thrown.Some? {
        assert forall i :: 0 <= i < |bulks| ==> Share(answer, |bulks|, i) == Rejected(thrown.value);
        SettleBatchRejects(settled, bulks, answer, thrown.value, |bulks|);
        RejectAll(bulks, thrown.value);
      }
    }

    method RejectAll(bulks: seq<Call>, error: string)
      modifies this`settled
      ensures settled == SettleBatch(old(settled), bulks, Failure(error), |bulks|)
    {
      for i := 0 to |bulks|
        invariant settled == SettleBatch(old(settled), bulks, Failure(error), i)
      {
        settled := Settle(settled, bulks[i], Rejected(error));
      }
    }
  }

  /** Rejecting calls that were all resolved changes nothing. */
  lemma RejectSettled<R>(before: map<Call, Settlement<R>>, bulks: seq<Call>, answer: Answer<R>)
    requires !answer.Unlisted?
    ensures var after := SettleBatch(before, bulks, answer, |bulks|);
            forall e :: SettleBatch(after, bulks, Failure(e), |bulks|) == after
  {
    var after := SettleBatch(before, bulks, answer, |bulks|);
    forall e ensures SettleBatch(after, bulks, Failure(e), |bulks|) == after {
      forall i | 0 <= i < |bulks| ensures bulks[i] in after { SettleBatchCovers(before, bulks, answer, |bulks|, i); }
      NothingToSettle(after, bulks, Failure(e), |bulks|);
    }
  }

  lemma {:induction false} SettleBatchCovers<R>(settled: map<Call, Settlement<R>>, bulks: seq<Call>,
                                                answer: Answer<R>, n: nat, i: nat)
    requires i < n <= |bulks| && !answer.Unlisted?
    ensures bulks[i] in SettleBatch(settled, bulks, answer, n)
  {
    if i < n - 1 { SettleBatchCovers(settled, bulks, answer, n - 1, i); }
  }

  lemma {:induction false} NothingToSettle<R>(settled: map<Call, Settlement<R>>, bulks: seq<Call>, answer: Answer<R>,
                                              n: nat)
    requires n <= |bulks| && !answer.Unlisted? && forall i :: 0 <= i < |bulks| ==> bulks[i] in settled
    ensures SettleBatch(settled, bulks, answer, n) == settled
  {
    if n > 0 { NothingToSettle(settled, bulks, answer, n - 1); }
  }

  lemma {:induction false} SettleBatchRejects<R>(settled: map<Call, Settlement<R>>, bulks: seq<Call>,
                                                 answer: Answer<R>, error: string, n: nat)
    requires n <= |bulks| && !answer.Unlisted?
    requires forall i :: 0 <= i < |bulks| ==> Share(answer, |bulks|, i) == Rejected(error)
    ensures SettleBatch(settled, bulks, answer, n) == SettleBatch(settled, bulks, Failure(error), n)
  {
    if n > 0 { SettleBatchRejects(settled, bulks, answer, error, n - 1); }
  }
}
