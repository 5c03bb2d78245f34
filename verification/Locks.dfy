/** The distributed lock over a cache with expiry (KVExchanger and Lock in vstutils/utils.py):
    as a protocol of many lock objects for one id, and as objects over the cache. */
module Locks {
  import opened Common

  /** A lock object; its payload is unique, so the object stands for it. */
  type Client = nat

  type Ttl = n: nat | n > 0 witness 1

  datatype Entry = Entry(payload: Client, expires: nat)

  // ---- the cache, for one key ----

  predicate Live(e: Option<Entry>, now: nat)
  {
    e.Some? && now < e.value.expires
  }

  /** cache.add: stores unless there is an entry; answers whether it stored. */
  function Add(e: Option<Entry>, now: nat, payload: Client, ttl: Ttl): (Option<Entry>, bool)
  {
    if Live(e, now) then (e, false) else (Some(Entry(payload, now + ttl)), true)
  }

  function Get(e: Option<Entry>, now: nat): Option<Client>
  {
    if Live(e, now) then Some(e.value.payload) else None
  }

  /** cache.touch: a new expiry for whatever entry there is. */
  function Touch(e: Option<Entry>, now: nat, ttl: Ttl): Option<Entry>
  {
    if Live(e, now) then Some(Entry(e.value.payload, now + ttl)) else e
  }

  // ---- the protocol ----

  /** Trying: in the retry loop.  Observing: added, asleep before reading back.  Holding: id is
      set.  Released: released at least once; id stays set, so it may be released again. */
  datatype Phase = Trying | Observing | Holding | Released

  datatype State = State(now: nat, entry: Option<Entry>, phases: map<Client, Phase>)

  datatype Step =
    | Create(c: Client)
    | Send(c: Client, ttl: Ttl)
    | Observe(c: Client)
    | Prolong(c: Client, ttl: Ttl)
    | Release(c: Client)
    | Pass(d: nat)

  predicate Is(s: State, c: Client, phase: Phase)
  {
    c in s.phases && s.phases[c] == phase
  }

  /** Prolonging and releasing look neither at the payload nor, for touch, at the id. */
  function Next(s: State, step: Step): State
  {
    match step
    case Create(c) => if c in s.phases then s else s.(phases := s.phases[c := Trying])
    case Send(c, ttl) =>
      if !Is(s, c, Trying) then s else
      var (e, sent) := Add(s.entry, s.now, c, ttl);
      s.(entry := e, phases := s.phases[c := if sent then Observing else Trying])
    case Observe(c) =>
      if !Is(s, c, Observing) then s else
      s.(phases := s.phases[c := if Get(s.entry, s.now) == Some(c) then Holding else Trying])
    case Prolong(c, ttl) =>
      if Is(s, c, Holding) || Is(s, c, Released) then s.(entry := Touch(s.entry, s.now, ttl)) else s
    case Release(c) =>
      if Is(s, c, Holding) || Is(s, c, Released) then s.(entry := None, phases := s.phases[c := Released]) else s
    case Pass(d) => s.(now := s.now + d)
  }

  function At(s: State, steps: seq<Step>, i: nat): State
    requires i <= |steps|
  {
    if i == 0 then s else Next(At(s, steps, i - 1), steps[i - 1])
  }

  ghost predicate MutualExclusion(s: State)
  {
    forall a: Client, b: Client :: Is(s, a, Holding) && Is(s, b, Holding) ==> a == b
  }

  /** Whoever believes to hold the lock owns the live entry. */
  ghost predicate Protected(s: State)
  {
    forall c: Client :: Is(s, c, Holding) ==> Get(s.entry, s.now) == Some(c)
  }

  /** What its users must respect: nobody releases (again) while another one holds the lock,
      and no time passes beyond the lease of a holder. */
  ghost predicate Disciplined(s: State, step: Step)
  {
    match step
    case Release(c) =>
      Is(s, c, Holding) || Is(s, c, Released) ==> forall b: Client :: Is(s, b, Holding) ==> b == c
    case Pass(d) =>
      (exists c: Client :: Is(s, c, Holding)) ==> Live(s.entry, s.now + d)
    case _ => true
  }

  /** One step keeps holders protected exactly when it is disciplined. */
  lemma StepKeepsProtectionIff(s: State, step: Step)
    requires Protected(s)
    ensures Protected(Next(s, step)) <==> Disciplined(s, step)
  {
    var t := Next(s, step);
    match step {
      case Release(c) =>
        assert forall x: Client :: Is(t, x, Holding) ==> Is(s, x, Holding);
        if b: Client :| Is(s, b, Holding) && b != c {
          assert Is(t, b, Holding);
        }
      case Pass(d) =>
        assert forall x: Client :: Is(t, x, Holding) <==> Is(s, x, Holding);
        if c: Client :| Is(s, c, Holding) {
          assert Is(t, c, Holding);
        }
      case Observe(c) =>
      case _ =>
    }
  }

  ghost predicate AllProtected(s: State, steps: seq<Step>)
  {
    forall i :: 0 <= i <= |steps| ==> Protected(At(s, steps, i))
  }

  ghost predicate AllDisciplined(s: State, steps: seq<Step>)
  {
    forall i :: 0 <= i < |steps| ==> Disciplined(At(s, steps, i), steps[i])
  }

  lemma ProtectionShowsDiscipline(s: State, steps: seq<Step>, i: nat)
    requires AllProtected(s, steps) && i < |steps|
    ensures Disciplined(At(s, steps, i), steps[i])
  {
    assert Protected(At(s, steps, i)) && Protected(At(s, steps, i + 1));
    StepKeepsProtectionIff(At(s, steps, i), steps[i]);
  }

  /** Over a whole run holders are protected throughout exactly when every step respects the
      discipline; and then no two clients ever hold the lock. */
  lemma {:induction false} ProtectedThroughoutIff(s: State, steps: seq<Step>)
    requires Protected(s)
    ensures AllProtected(s, steps) <==> AllDisciplined(s, steps)
    ensures AllDisciplined(s, steps) ==> forall i :: 0 <= i <= |steps| ==> MutualExclusion(At(s, steps, i))
  {
    if AllDisciplined(s, steps) {
      forall i | 0 <= i <= |steps| ensures Protected(At(s, steps, i)) && MutualExclusion(At(s, steps, i)) {
        DisciplineProtects(s, steps, i);
      }
    }
    if AllProtected(s, steps) {
      forall i | 0 <= i < |steps| ensures Disciplined(At(s, steps, i), steps[i]) {
        ProtectionShowsDiscipline(s, steps, i);
      }
    }
  }

  lemma {:induction false} DisciplineProtects(s: State, steps: seq<Step>, i: nat)
    requires Protected(s) && i <= |steps|
    requires AllDisciplined(s, steps)
    ensures Protected(At(s, steps, i)) && MutualExclusion(At(s, steps, i))
  {
    if i > 0 {
      DisciplineProtects(s, steps, i - 1);
      StepKeepsProtectionIff(At(s, steps, i - 1), steps[i - 1]);
    }
  }

  // ---- the discipline is exactly what exclusion needs ----

  /** A client that comes new, adds with the shortest lifetime and reads back at once. */
  function Joined(s: State, d: Client): State
  {
    Next(Next(Next(s, Create(d)), Send(d, 1)), Observe(d))
  }

  /** Whoever comes new next, no two clients hold the lock. */
  ghost predicate Unbreakable(s: State)
  {
    forall d: Client :: d !in s.phases ==> MutualExclusion(Joined(s, d))
  }

  lemma ProtectedKeepsNewcomersOut(s: State, d: Client)
    requires Protected(s) && d !in s.phases
    ensures MutualExclusion(Joined(s, d))
  {
    forall c: Client ensures Is(Joined(s, d), c, Holding) <==> Is(s, c, Holding) || (c == d && !Live(s.entry, s.now)) {}
    forall c: Client | Is(s, c, Holding) ensures Live(s.entry, s.now) {}
  }

  /** A step from a protected state that breaks the discipline lets the next newcomer in beside
      a holder; a disciplined one does not. */
  lemma NewcomerStaysOutIff(s: State, step: Step, d: Client)
    requires Protected(s) && d !in Next(s, step).phases
    ensures MutualExclusion(Joined(Next(s, step), d)) <==> Disciplined(s, step)
  {
    StepKeepsProtectionIff(s, step);
    var t := Next(s, step);
    if Disciplined(s, step) {
      ProtectedKeepsNewcomersOut(t, d);
    } else {
      var b: Client :| Is(t, b, Holding);
      assert !Live(t.entry, t.now);
      assert Is(Joined(t, d), d, Holding) && Is(Joined(t, d), b, Holding);
    }
  }

  lemma {:induction false} FreshClient(clients: set<Client>) returns (d: Client)
    ensures forall c :: c in clients ==> c < d
    decreases clients
  {
    d := 0;
    if c :| c in clients {
      var rest := clients - {c};
      d := FreshClient(rest);
      d := if c < d then d else c + 1;
      forall e | e in clients ensures e < d { assert e == c || e in rest; }
    }
  }

  lemma UnbreakableStepIff(s: State, step: Step)
    requires Protected(s)
    ensures Unbreakable(Next(s, step)) <==> Disciplined(s, step)
  {
    var d := FreshClient(Next(s, step).phases.Keys);
    NewcomerStaysOutIff(s, step, d);
    if Disciplined(s, step) {
      forall e: Client | e !in Next(s, step).phases ensures MutualExclusion(Joined(Next(s, step), e)) {
        NewcomerStaysOutIff(s, step, e);
      }
    }
  }

  ghost predicate AllUnbreakable(s: State, steps: seq<Step>)
  {
    forall i :: 0 <= i <= |steps| ==> Unbreakable(At(s, steps, i))
  }

  /** Over a whole run, exclusion can at no moment be broken by a newcomer exactly when every
      step respects the discipline. */
  lemma {:induction false} UnbreakableThroughoutIff(s: State, steps: seq<Step>)
    requires Protected(s)
    ensures AllUnbreakable(s, steps) <==> AllDisciplined(s, steps)
  {
    if AllDisciplined(s, steps) {
      forall i | 0 <= i <= |steps| ensures Unbreakable(At(s, steps, i)) {
        DisciplineProtects(s, steps, i);
        forall d: Client | d !in At(s, steps, i).phases ensures MutualExclusion(Joined(At(s, steps, i), d)) {
          ProtectedKeepsNewcomersOut(At(s, steps, i), d);
        }
      }
    }
    if AllUnbreakable(s, steps) {
      forall i | 0 <= i < |steps| ensures Disciplined(At(s, steps, i), steps[i]) {
        UnbreakableProtects(s, steps, i);
        StillUnbreakable(s, steps, i);
      }
    }
  }

  lemma StillUnbreakable(s: State, steps: seq<Step>, i: nat)
    requires AllUnbreakable(s, steps) && i < |steps| && Protected(At(s, steps, i))
    ensures Disciplined(At(s, steps, i), steps[i])
  {
    assert Unbreakable(At(s, steps, i + 1));
    UnbreakableStepIff(At(s, steps, i), steps[i]);
  }

  lemma {:induction false} UnbreakableProtects(s: State, steps: seq<Step>, i: nat)
    requires Protected(s) && AllUnbreakable(s, steps) && i <= |steps|
    ensures Protected(At(s, steps, i))
  {
    if i > 0 {
      UnbreakableProtects(s, steps, i - 1);
      StillUnbreakable(s, steps, i - 1);
      StepKeepsProtectionIff(At(s, steps, i - 1), steps[i - 1]);
    }
  }

  /** In any state at all, observing makes a holder only of the owner of the live entry: a
      client whose entry expired or was deleted while it slept goes back to trying. */
  lemma OnlyTheOwnerBecomesHolder(s: State, c: Client)
    requires Is(s, c, Observing)
    ensures Is(Next(s, Observe(c)), c, Holding) <==> Live(s.entry, s.now) && s.entry.value.payload == c
    ensures !Is(Next(s, Observe(c)), c, Holding) ==> Is(Next(s, Observe(c)), c, Trying)
  {
  }

  /** Adding takes the lock's entry exactly when nobody has it, and otherwise changes nothing;
      prolonging extends the lease of whoever has it, by any object with an id. */
  lemma EntriesAreTakenAndProlonged(s: State, c: Client, ttl: Ttl)
    ensures Is(s, c, Trying) && Live(s.entry, s.now) ==> Next(s, Send(c, ttl)).entry == s.entry
    ensures Is(s, c, Trying) && Live(s.entry, s.now) ==> Is(Next(s, Send(c, ttl)), c, Trying)
    ensures Is(s, c, Trying) && !Live(s.entry, s.now) ==>
              Next(s, Send(c, ttl)) == State(s.now, Some(Entry(c, s.now + ttl)), s.phases[c := Observing])
    ensures (Is(s, c, Holding) || Is(s, c, Released)) && Live(s.entry, s.now) ==>
              Next(s, Prolong(c, ttl)) == s.(entry := Some(Entry(s.entry.value.payload, s.now + ttl)))
  {
  }

  /** Leaving a with block releases, and so does collecting the object later.  If another
      client got the lock in between, its entry is deleted and a third one gets in. */
  lemma SecondReleaseBreaksExclusion(s: State)
    requires Is(s, 1, Holding) && Is(s, 2, Trying) && Is(s, 3, Trying) && Protected(s)
    ensures var left := Next(s, Release(1));
            var taken := Next(Next(left, Send(2, 100)), Observe(2));
            var collected := Next(taken, Release(1));
            var end := Next(Next(collected, Send(3, 100)), Observe(3));
            && Protected(taken) && Is(taken, 2, Holding)
            && Is(end, 2, Holding) && Is(end, 3, Holding) && !MutualExclusion(end)
  {
    var left := Next(s, Release(1));
    assert Get(s.entry, s.now) == Some(1);
    forall b: Client ensures !Is(left, b, Holding) {
      assert Is(s, b, Holding) ==> b == 1;
    }
    GetsIn(left, 2);
    var taken := Next(Next(left, Send(2, 100)), Observe(2));
    assert Is(taken, 1, Released) && Is(taken, 3, Trying) by {
      assert Is(left, 1, Released) && Is(left, 3, Trying);
    }
    forall b: Client | Is(taken, b, Holding) ensures b == 2 {
      assert b != 2 ==> Is(left, b, Holding);
    }
    var collected := Next(taken, Release(1));
    assert Is(collected, 2, Holding) && Is(collected, 3, Trying);
    GetsIn(collected, 3);
  }

  lemma GetsIn(s: State, c: Client)
    requires s.entry.None? && Is(s, c, Trying)
    ensures var t := Next(Next(s, Send(c, 100)), Observe(c));
            && Is(t, c, Holding)
            && t.now == s.now && Get(t.entry, t.now) == Some(c)
            && (forall b: Client, phase :: b != c ==> (Is(t, b, phase) <==> Is(s, b, phase)))
  {
  }

  // ---- the objects ----

  /** What goes on while a process sleeps: others use the cache, and time passes. */
  datatype Foreign =
    | Adds(key: string, payload: Client, ttl: Ttl)
    | Touches(key: string, ttl: Ttl)
    | Deletes(key: string)
    | Passes(d: nat)

  /** The entry of one key, and the time. */
  datatype Moment = Moment(entry: Option<Entry>, now: nat)

  function Use(m: Moment, key: string, f: Foreign): Moment
  {
    match f
    case Adds(k, payload, ttl) => if k == key then m.(entry := Add(m.entry, m.now, payload, ttl).0) else m
    case Touches(k, ttl) => if k == key then m.(entry := Touch(m.entry, m.now, ttl)) else m
    case Deletes(k) => if k == key then m.(entry := None) else m
    case Passes(d) => m.(now := m.now + d)
  }

  function UseAll(m: Moment, key: string, others: seq<Foreign>): Moment
  {
    if others == [] then m else Use(UseAll(m, key, others[..|others| - 1]), key, others[|others| - 1])
  }

  function Duration(others: seq<Foreign>): nat
  {
    if others == [] then 0 else
    Duration(others[..|others| - 1]) + (match others[|others| - 1] case Passes(d) => d case _ => 0)
  }

  lemma {:induction false} TimePasses(m: Moment, key: string, others: seq<Foreign>)
    ensures UseAll(m, key, others).now == m.now + Duration(others)
    decreases |others|
  {
    if others != [] { TimePasses(m, key, others[..|others| - 1]); }
  }

  predicate Unused(key: string, others: seq<Foreign>)
  {
    forall f :: f in others ==> f.Passes? || f.key != key
  }

  /** During a sleep shorter than the lifetime nobody deletes the key, and who touches it gives it
      enough. */
  predicate Undisturbed(key: string, others: seq<Foreign>, ttl: Ttl)
  {
    && Duration(others) < ttl
    && forall f :: f in others ==>
         f != Deletes(key) && (f.Touches? && f.key == key ==> Duration(others) < f.ttl)
  }

  /** Then an entry that was just added is there when the sleep is over. */
  lemma {:induction false} Survives(m: Moment, key: string, others: seq<Foreign>, payload: Client, ttl: Ttl, long: nat)
    requires m.entry == Some(Entry(payload, m.now + ttl)) && Duration(others) <= long < ttl
    requires forall f :: f in others ==> f != Deletes(key) && (f.Touches? && f.key == key ==> long < f.ttl)
    ensures var after := UseAll(m, key, others);
            after.entry.Some? && after.entry.value.payload == payload && m.now + long < after.entry.value.expires
    decreases |others|
  {
    if others != [] {
      var early, last := others[..|others| - 1], others[|others| - 1];
      Survives(m, key, early, payload, ttl, long);
      TimePasses(m, key, early);
      assert last in others;
    }
  }

  /** The shared locks cache. */
  class LocksCache {
    var entries: map<string, Entry>
    var now: nat

    function EntryOf(key: string): Option<Entry>
      reads this
    {
      if key in entries then Some(entries[key]) else None
    }

    constructor ()
      ensures entries == map[] && now == 0
    {
      entries := map[];
      now := 0;
    }

    method AddKey(key: string, payload: Client, ttl: Ttl) returns (sent: bool)
      modifies this`entries
      ensures (EntryOf(key), sent) == Add(old(EntryOf(key)), now, payload, ttl)
      ensures sent <==> old(EntryOf(key)).None? || old(EntryOf(key)).value.expires <= now
      ensures EntryOf(key) == if sent then Some(Entry(payload, now + ttl)) else old(EntryOf(key))
      ensures forall k :: k != key ==> EntryOf(k) == old(EntryOf(k))
    {
      sent := key !in entries || entries[key].expires <= now;
      if sent {
        entries := entries[key := Entry(payload, now + ttl)];
      }
    }

    method GetKey(key: string) returns (payload: Option<Client>)
      ensures payload == Get(EntryOf(key), now)
    {
      payload := if key in entries && now < entries[key].expires then Some(entries[key].payload) else None;
    }

    method TouchKey(key: string, ttl: Ttl)
      modifies this`entries
      ensures EntryOf(key) == Touch(old(EntryOf(key)), now, ttl)
      ensures old(EntryOf(key)).Some? && now < old(EntryOf(key)).value.expires ==>
                EntryOf(key) == Some(Entry(old(EntryOf(key)).value.payload, now + ttl))
      ensures old(EntryOf(key)).None? || old(EntryOf(key)).value.expires <= now ==> EntryOf(key) == old(EntryOf(key))
      ensures forall k :: k != key ==> EntryOf(k) == old(EntryOf(k))
    {
      if key in entries && now < entries[key].expires {
        entries := entries[key := Entry(entries[key].payload, now + ttl)];
      }
    }

    method DeleteKey(key: string)
      modifies this`entries
      ensures EntryOf(key) == None
      ensures forall k :: k != key ==> EntryOf(k) == old(EntryOf(k))
    {
      entries := entries - {key};
    }

    ghost function At(key: string): Moment
      reads this
    {
      Moment(EntryOf(key), now)
    }

    /** time.sleep: time passes and others use the cache. */
    method Sleep(others: seq<Foreign>)
      modifies this
      ensures forall k :: At(k) == UseAll(old(At(k)), k, others)
      ensures forall k :: Unused(k, others) ==> EntryOf(k) == old(EntryOf(k))
    {
      for i := 0 to |others|
        invariant forall k :: At(k) == UseAll(old(At(k)), k, others[..i])
        invariant forall k :: Unused(k, others) ==> EntryOf(k) == old(EntryOf(k))
      {
        assert others[..i + 1][..i] == others[..i];
        label before:
        match others[i] {
          case Adds(key, payload, ttl) => var _ := AddKey(key, payload, ttl);
          case Touches(key, ttl) => TouchKey(key, ttl);
          case Deletes(key) => DeleteKey(key);
          case Passes(d) => now := now + d;
        }
        assert forall k :: At(k) == Use(old@before(At(k)), k, others[i]);
      }
      assert others[..|others|] == others;
    }
  }

  /** The two sleeps of one round of the retry loop: before reading back, and before trying again. */
  datatype Round = Round(observe: seq<Foreign>, retry: seq<Foreign>)

  /** A round wins when the key is free and what was added is still there after the sleep. */
  predicate Wins(m: Moment, key: string, payload: Client, timeout: Ttl, round: Round)
  {
    && !Live(m.entry, m.now)
    && var read := UseAll(Moment(Some(Entry(payload, m.now + timeout)), m.now), key, round.observe);
       Get(read.entry, read.now) == Some(payload)
  }

  /** The key after a round that did not win. */
  function Tried(m: Moment, key: string, payload: Client, timeout: Ttl, round: Round): Moment
  {
    var (entry, sent) := Add(m.entry, m.now, payload, timeout);
    UseAll(if sent then UseAll(Moment(entry, m.now), key, round.observe) else m, key, round.retry)
  }

  /** The key when round k begins, if no earlier one won. */
  function BeginOf(m: Moment, key: string, payload: Client, timeout: Ttl, rounds: seq<Round>, k: nat): Moment
    requires k <= |rounds|
  {
    if k == 0 then m else
    Tried(BeginOf(m, key, payload, timeout, rounds, k - 1), key, payload, timeout, rounds[k - 1])
  }

  lemma {:induction false} BeginsLater(m: Moment, key: string, payload: Client, timeout: Ttl, rounds: seq<Round>,
                                       i: nat, k: nat)
    requires i <= k <= |rounds|
    ensures BeginOf(m, key, payload, timeout, rounds, i).now <= BeginOf(m, key, payload, timeout, rounds, k).now
  {
    if i < k {
      BeginsLater(m, key, payload, timeout, rounds, i, k - 1);
      var begun := BeginOf(m, key, payload, timeout, rounds, k - 1);
      var (entry, sent) := Add(begun.entry, begun.now, payload, timeout);
      TimePasses(Moment(entry, begun.now), key, rounds[k - 1].observe);
      TimePasses(if sent then UseAll(Moment(entry, begun.now), key, rounds[k - 1].observe) else begun,
                 key, rounds[k - 1].retry);
    }
  }

  /** Nobody else uses the key during the sleeps. */
  ghost predicate LeftAlone(key: string, rounds: seq<Round>)
  {
    forall i :: 0 <= i < |rounds| ==> Unused(key, rounds[i].observe) && Unused(key, rounds[i].retry)
  }

  /** A free key that is left alone during the first sleep is won. */
  lemma FreeKeyIsWon(m: Moment, key: string, payload: Client, timeout: Ttl, round: Round)
    requires m.entry.None? || m.entry.value.expires <= m.now
    requires Undisturbed(key, round.observe, timeout)
    ensures Wins(m, key, payload, timeout, round)
  {
    var added := Moment(Some(Entry(payload, m.now + timeout)), m.now);
    Survives(added, key, round.observe, payload, timeout, Duration(round.observe));
    TimePasses(added, key, round.observe);
  }

  /** A key somebody else holds is not. */
  lemma HeldKeyIsNotWon(m: Moment, key: string, payload: Client, timeout: Ttl, round: Round)
    requires m.entry.Some? && m.now < m.entry.value.expires
    ensures !Wins(m, key, payload, timeout, round)
  {
  }

  /** What others do during the sleep decides: an entry that is deleted or expires is lost, also to
      the next who adds; one that is touched in time lasts as long as the touch gives it. */
  lemma SleepDecides(m: Moment, key: string, payload: Client, timeout: Ttl, retry: seq<Foreign>,
                     other: Client, ttl: Ttl, d: nat, e: nat)
    requires !Live(m.entry, m.now) && other != payload
    ensures !Wins(m, key, payload, timeout, Round([Deletes(key)], retry))
    ensures Wins(m, key, payload, timeout, Round([Passes(d)], retry)) <==> d < timeout
    ensures Wins(m, key, payload, timeout, Round([Passes(d), Touches(key, ttl), Passes(e)], retry)) <==>
              d < timeout && e < ttl
    ensures Wins(m, key, payload, timeout, Round([Passes(d), Adds(key, other, ttl)], retry)) <==> d < timeout
    ensures UseAll(m, key, [Adds(key, other, ttl)]).entry == Some(Entry(other, m.now + ttl))
  {
    var added := Moment(Some(Entry(payload, m.now + timeout)), m.now);
    OneUse(added, key, Deletes(key));
    OneUse(added, key, Passes(d));
    OneUse(m, key, Adds(key, other, ttl));
    var slept := added.(now := m.now + d);
    TwoUses(added, key, Passes(d), Adds(key, other, ttl));
    assert [Passes(d), Touches(key, ttl), Passes(e)][..2] == [Passes(d), Touches(key, ttl)];
    TwoUses(added, key, Passes(d), Touches(key, ttl));
  }

  lemma OneUse(m: Moment, key: string, f: Foreign)
    ensures UseAll(m, key, [f]) == Use(m, key, f)
  {
    assert [f][..0] == [];
  }

  lemma TwoUses(m: Moment, key: string, f: Foreign, g: Foreign)
    ensures UseAll(m, key, [f, g]) == Use(Use(m, key, f), key, g)
  {
    assert [f, g][..1] == [f];
    OneUse(m, key, f);
  }

  class Lock {
    const cache: LocksCache
    const key: string
    const payload: Client
    const timeout: Ttl
    var id: Option<string>

    constructor (cache: LocksCache, prefix: string, id: string, payload: Client, timeout: Ttl)
      ensures this.cache == cache && this.payload == payload && this.timeout == timeout
      ensures key == prefix + id
      ensures this.id.None?
    {
      this.cache := cache;
      this.key := prefix + id;
      this.payload := payload;
      this.timeout := timeout;
      this.id := None;
    }

    /** The retry loop of the initialiser.  It ends with the lock exactly when some round that
        begins within the given time wins: the first that finds the key free and, after its
        sleep, its own entry still there.  Otherwise it raises AcquireLockException (Err) once the
        time has gone by, or the given schedule ends. */
    method Acquire(id: string, repeat: nat, rounds: seq<Round>) returns (r: Result<(), string>)
      requires this.id.None?
      modifies this`id, cache
      ensures r.Ok? ==> this.id == Some(id) && Get(cache.EntryOf(key), cache.now) == Some(payload)
      ensures r.Err? ==> this.id.None?
      ensures r == Err("timeout") ==> cache.now - old(cache.now) > repeat
      ensures r.Ok? <==> exists k :: 0 <= k < |rounds| && WinsIn(old(cache.At(key)), rounds, k, repeat)
      ensures (&& rounds != [] && Undisturbed(key, rounds[0].observe, timeout)
               && (old(cache.EntryOf(key)).None? || old(cache.EntryOf(key)).value.expires <= old(cache.now))) ==> r.Ok?
      ensures forall k :: k != key && LeftAlone(k, rounds) ==> cache.EntryOf(k) == old(cache.EntryOf(k))
    {
      var start := cache.now;
      ghost var begin := cache.At(key);
      if rounds != [] && (begin.entry.None? || begin.entry.value.expires <= begin.now)
         && Undisturbed(key, rounds[0].observe, timeout) {
        FreeKeyIsWon(begin, key, payload, timeout, rounds[0]);
        assert WinsIn(begin, rounds, 0, repeat);
      }
      for i := 0 to |rounds|
        invariant this.id.None? && cache.At(key) == BeginOf(begin, key, payload, timeout, rounds, i)
        invariant forall k :: 0 <= k < i ==> !WinsIn(begin, rounds, k, repeat)
        invariant forall k :: k != key && LeftAlone(k, rounds) ==> cache.EntryOf(k) == old(cache.EntryOf(k))
      {
        if cache.now - start > repeat {
          forall k | i <= k < |rounds| ensures !WinsIn(begin, rounds, k, repeat) {
            BeginsLater(begin, key, payload, timeout, rounds, i, k);
          }
          return Err("timeout");
        }
        var won := Attempt(rounds[i]);
        if won {
          assert WinsIn(begin, rounds, i, repeat);
          this.id := Some(id);
          return Ok(());
        }
      }
      r := Err("still trying");
    }

    /** One round: add, sleep, read back; and sleep before the next when that did not win. */
    method Attempt(round: Round) returns (won: bool)
      modifies cache
      ensures won <==> Wins(old(cache.At(key)), key, payload, timeout, round)
      ensures won ==> Get(cache.EntryOf(key), cache.now) == Some(payload)
      ensures !won ==> cache.At(key) == Tried(old(cache.At(key)), key, payload, timeout, round)
      ensures forall k :: k != key && Unused(k, round.observe) && Unused(k, round.retry) ==>
                cache.EntryOf(k) == old(cache.EntryOf(k))
    {
      var sent := cache.AddKey(key, payload, timeout);
      if sent {
        assert cache.At(key) == Moment(Some(Entry(payload, cache.now + timeout)), cache.now);
        cache.Sleep(round.observe);
        var value := cache.GetKey(key);
        if value == Some(payload) {
          return true;
        }
      }
      cache.Sleep(round.retry);
      won := false;
    }

    /** Round k begins within the given time, and wins. */
    ghost predicate WinsIn(begin: Moment, rounds: seq<Round>, k: nat, repeat: nat)
      requires k < |rounds|
    {
      var begun := BeginOf(begin, key, payload, timeout, rounds, k);
      begun.now - begin.now <= repeat && Wins(begun, key, payload, timeout, rounds[k])
    }

    method Prolong()
      modifies cache`entries
      ensures cache.EntryOf(key) == Touch(old(cache.EntryOf(key)), cache.now, timeout)
    {
      cache.TouchKey(key, timeout);
    }

    /** Deletes by key, whoever's entry it is, and keeps the id; a forced release does so even
        without one. */
    method Release(forceRelease: bool)
      modifies cache`entries
      ensures forceRelease || id.Some? ==> cache.EntryOf(key) == None
      ensures !forceRelease && id.None? ==> cache.EntryOf(key) == old(cache.EntryOf(key))
      ensures forall k :: k != key ==> cache.EntryOf(k) == old(cache.EntryOf(k))
    {
      if forceRelease || id.Some? {
        cache.DeleteKey(key);
      }
    }
  }
}
