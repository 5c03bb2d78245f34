/** The singleton beat scheduler (vstutils/celery_beat_scheduler.py): many instances, of which
    only the one that holds the lock executes tasks. */
module Scheduler {
  import opened Common
  import opened Locks

  const TIMEOUT: Ttl := 120

  /** One instance: the first tick only discards; later ones need the lock.  Once close has
      released the lock the instance does not tick any more. */
  datatype Beat = Beat(discarding: bool, ready: bool, closed: bool)

  /** touched: when an instance last added or prolonged the lock entry. */
  datatype Cluster = Cluster(locks: State, beats: map<Client, Beat>, touched: map<Client, nat>)

  /** The pieces of tick, close and collection of the lock object. */
  datatype Act =
    | StartUp(b: Client)
    | Discard(b: Client)
    | Ask(b: Client)
    | Check(b: Client)
    | Extend(b: Client)
    | Execute(b: Client)
    | Close(b: Client)
    | Collect(b: Client)
    | Wait(d: nat)

  predicate Ticking(s: Cluster, b: Client)
  {
    b in s.beats && !s.beats[b].closed && !s.beats[b].discarding
  }

  predicate Enabled(s: Cluster, act: Act)
  {
    match act
    case StartUp(b) => b !in s.beats && b !in s.locks.phases
    case Discard(b) => b in s.beats && s.beats[b].discarding && !s.beats[b].closed
    case Ask(b) => Ticking(s, b) && Is(s.locks, b, Trying)
    case Check(b) => Ticking(s, b) && Is(s.locks, b, Observing)
    case Extend(b) => Ticking(s, b) && Is(s.locks, b, Holding)
    case Execute(b) => Ticking(s, b) && Is(s.locks, b, Holding) && s.beats[b].ready
    case Close(b) => b in s.beats && !s.beats[b].closed
    case Collect(b) => b in s.beats && s.beats[b].closed
    case Wait(_) => true
  }

  /** The step an act takes in the lock protocol, if any. */
  function LockStep(act: Act): Option<Step>
  {
    match act
    case StartUp(b) => Some(Create(b))
    case Ask(b) => Some(Send(b, TIMEOUT))
    case Check(b) => Some(Observe(b))
    case Extend(b) => Some(Prolong(b, TIMEOUT))
    case Close(b) => Some(Release(b))
    case Collect(b) => Some(Release(b))
    case Wait(d) => Some(Pass(d))
    case _ => None
  }

  function Do(s: Cluster, act: Act): Cluster
  {
    if !Enabled(s, act) then s else
    var locks := if LockStep(act).Some? then Locks.Next(s.locks, LockStep(act).value) else s.locks;
    match act
    case StartUp(b) => s.(locks := locks, beats := s.beats[b := Beat(true, false, false)])
    case Discard(b) => s.(beats := s.beats[b := s.beats[b].(discarding := false)])
    case Ask(b) => s.(locks := locks, touched := s.touched[b := s.locks.now])
    case Extend(b) => Cluster(locks, s.beats[b := s.beats[b].(ready := true)], s.touched[b := s.locks.now])
    case Execute(b) => s.(beats := s.beats[b := s.beats[b].(ready := false)])
    case Close(b) => s.(locks := locks, beats := s.beats[b := s.beats[b].(closed := true, ready := false)])
    case _ => s.(locks := locks)
  }

  /** The states a cluster goes through from the start, when there is no lock in the cache. */
  ghost predicate IsRun(states: seq<Cluster>, acts: seq<Act>)
  {
    && |states| == |acts| + 1
    && states[0] == Cluster(State(states[0].locks.now, None, map[]), map[], map[])
    && forall i :: 0 <= i < |acts| ==> Follows(states[i], acts[i], states[i + 1])
  }

  /** One act of punctual instances. */
  ghost predicate Follows(s: Cluster, act: Act, t: Cluster)
  {
    Punctual(s, act) && t == Do(s, act)
  }

  /** What is asked of the instances: one that holds the lock ticks again (or closes) before
      its timeout has gone by since it last asked or extended; and the lock object of a closed
      instance is not collected while another instance holds the lock. */
  ghost predicate Punctual(s: Cluster, act: Act)
  {
    match act
    case Wait(d) => forall b: Client :: Is(s.locks, b, Holding) && b in s.touched ==>
      s.locks.now + d < s.touched[b] + TIMEOUT
    case Collect(b) => forall c: Client :: Is(s.locks, c, Holding) ==> c == b
    case _ => true
  }

  /** A holder owns the entry in the cache, with exactly its own lease. */
  ghost predicate Ordered(s: Cluster)
  {
    Protected(s.locks) && forall b: Client :: InOrder(s, b)
  }

  ghost predicate InOrder(s: Cluster, b: Client)
  {
    var owner := Get(s.locks.entry, s.locks.now) == Some(b);
    && (b in s.locks.phases ==> b in s.beats)
    && (owner ==> b in s.locks.phases && !Is(s.locks, b, Trying))
    && (owner && (Is(s.locks, b, Observing) || Is(s.locks, b, Holding)) ==>
          b in s.touched && s.locks.entry == Some(Entry(b, s.touched[b] + TIMEOUT)))
    && (Is(s.locks, b, Holding) ==> !s.beats[b].closed && !s.beats[b].discarding)
    && (Is(s.locks, b, Observing) ==> !s.beats[b].discarding)
    && (Is(s.locks, b, Released) ==> s.beats[b].closed)
    && (b in s.beats && s.beats[b].ready ==> Is(s.locks, b, Holding))
  }

  lemma PunctualIsDisciplined(s: Cluster, act: Act)
    requires Ordered(s) && Punctual(s, act) && Enabled(s, act) && LockStep(act).Some?
    ensures Disciplined(s.locks, LockStep(act).value)
  {
    if act.Wait? {
      if b: Client :| Is(s.locks, b, Holding) {
        assert InOrder(s, b);
      }
    }
    if act.Close? {
      assert InOrder(s, act.b);
    }
  }

  lemma OrderedStep(s: Cluster, act: Act)
    requires Ordered(s) && Punctual(s, act)
    ensures Ordered(Do(s, act))
  {
    var t := Do(s, act);
    if Enabled(s, act) && LockStep(act).Some? {
      PunctualIsDisciplined(s, act);
      StepKeepsProtectionIff(s.locks, LockStep(act).value);
    }
    forall b: Client ensures InOrder(t, b) {
      assert InOrder(s, b);
      InOrderStep(s, act, b);
    }
  }

  lemma InOrderStep(s: Cluster, act: Act, b: Client)
    requires Protected(s.locks) && InOrder(s, b) && Punctual(s, act)
    ensures InOrder(Do(s, act), b)
  {
  }

  lemma {:induction false} OrderedRun(states: seq<Cluster>, acts: seq<Act>, i: nat)
    requires IsRun(states, acts) && i < |states|
    ensures Ordered(states[i]) && MutualExclusion(states[i].locks)
  {
    if i > 0 {
      OrderedRun(states, acts, i - 1);
      assert Follows(states[i - 1], acts[i - 1], states[i - 1 + 1]);
      OrderedStep(states[i - 1], acts[i - 1]);
    }
  }

  predicate Executes(s: Cluster, act: Act, b: Client)
  {
    act == Execute(b) && Enabled(s, act)
  }

  lemma HoldsStep(s: Cluster, act: Act, b: Client)
    requires Ordered(s) && Is(s.locks, b, Holding) && act != Close(b)
    ensures Is(Do(s, act).locks, b, Holding)
  {
    assert InOrder(s, b);
  }

  /** A holder stays one until it closes. */
  lemma {:induction false} HoldsUntilClose(states: seq<Cluster>, acts: seq<Act>, b: Client, i: nat, j: nat)
    requires IsRun(states, acts) && i <= j < |states|
    requires Is(states[i].locks, b, Holding)
    requires forall k :: i <= k < j ==> acts[k] != Close(b)
    ensures Is(states[j].locks, b, Holding)
  {
    if i < j {
      HoldsUntilClose(states, acts, b, i, j - 1);
      OrderedRun(states, acts, j - 1);
      HoldsStep(states[j - 1], acts[j - 1], b);
      assert Follows(states[j - 1], acts[j - 1], states[j - 1 + 1]);
    }
  }

  /** Over every run of punctual instances: whoever executes a task is the only holder and
      executes within its lease; and between tasks executed by two different instances the
      first one closed. */
  lemma OneInstanceExecutes(states: seq<Cluster>, acts: seq<Act>, i: nat, a: Client)
    requires IsRun(states, acts) && i < |acts| && Executes(states[i], acts[i], a)
    ensures Get(states[i].locks.entry, states[i].locks.now) == Some(a)
    ensures forall b: Client :: Is(states[i].locks, b, Holding) ==> b == a
    ensures forall j, b: Client :: i < j < |acts| && Executes(states[j], acts[j], b) && b != a ==>
              exists k :: i < k < j && acts[k] == Close(a)
  {
    OrderedRun(states, acts, i);
    forall j, b: Client | i < j < |acts| && Executes(states[j], acts[j], b) && b != a
      ensures exists k :: i < k < j && acts[k] == Close(a)
    {
      OrderedRun(states, acts, j);
      if forall k :: i <= k < j ==> acts[k] != Close(a) {
        HoldsUntilClose(states, acts, a, i, j);
      }
    }
  }

  /** Step k extended the lease of b, and b has executed nothing from then until step i. */
  ghost predicate ExtendedAt(states: seq<Cluster>, acts: seq<Act>, k: nat, i: nat, b: Client)
    requires |acts| < |states| && i <= |acts|
  {
    && k < i && acts[k] == Extend(b) && Enabled(states[k], acts[k])
    && forall m :: k < m < i ==> acts[m] != Execute(b)
  }

  /** Each execution is preceded by an extension of the lease of its own: the instance extended
      after whatever it executed before. */
  lemma ExtendsBeforeExecuting(states: seq<Cluster>, acts: seq<Act>, i: nat, b: Client)
    requires IsRun(states, acts) && i < |acts| && Executes(states[i], acts[i], b)
    ensures exists k: nat :: ExtendedAt(states, acts, k, i, b)
  {
    ReadyIsExtended(states, acts, i, b);
  }

  lemma {:induction false} ReadyIsExtended(states: seq<Cluster>, acts: seq<Act>, i: nat, b: Client)
    requires IsRun(states, acts) && i < |states|
    requires b in states[i].beats && states[i].beats[b].ready
    ensures exists k: nat :: ExtendedAt(states, acts, k, i, b)
  {
    if i > 0 {
      var s, act := states[i - 1], acts[i - 1];
      assert Follows(s, act, states[i - 1 + 1]);
      if act == Extend(b) && Enabled(s, act) {
        assert ExtendedAt(states, acts, i - 1, i, b);
      } else {
        OrderedRun(states, acts, i - 1);
        assert InOrder(s, b);
        StaysReady(s, act, b);
        ReadyIsExtended(states, acts, i - 1, b);
        var k: nat :| ExtendedAt(states, acts, k, i - 1, b);
        assert ExtendedAt(states, acts, k, i, b);
      }
    }
  }

  lemma StaysReady(s: Cluster, act: Act, b: Client)
    requires InOrder(s, b)
    requires b in Do(s, act).beats && Do(s, act).beats[b].ready && (act != Extend(b) || !Enabled(s, act))
    ensures b in s.beats && s.beats[b].ready && act != Execute(b)
  {
  }

  // ---- tasks get executed ----

  /** An instance in whose way nobody stands: it has extended its lease of two minutes. */
  predicate IsReady(s: Cluster, b: Client)
  {
    && Enabled(s, Execute(b))
    && s.locks.entry == Some(Entry(b, s.locks.now + 120))
  }

  /** A new instance that finds the lock free takes these acts up to its first task. */
  lemma NewcomerGetsReady(s: Cluster, b: Client)
    requires b !in s.beats && b !in s.locks.phases
    requires s.locks.entry.None? || s.locks.entry.value.expires <= s.locks.now
    ensures var started := Do(s, StartUp(b));
            var discarded := Do(started, Discard(b));
            var asked := Do(discarded, Ask(b));
            var checked := Do(asked, Check(b));
            && !Enabled(started, Ask(b)) && Enabled(discarded, Ask(b)) && Enabled(checked, Extend(b))
            && !Enabled(checked, Execute(b)) && IsReady(Do(checked, Extend(b)), b)
            && Do(checked, Extend(b)).locks.now == s.locks.now
  {
  }

  /** Each task takes an extension of its own, which gives two minutes from then on. */
  lemma TaskAfterTask(s: Cluster, b: Client, d: nat)
    requires IsReady(s, b) && d < 120
    ensures var later := Do(Do(s, Execute(b)), Wait(d));
            && !Enabled(later, Execute(b)) && later.locks.now == s.locks.now + d
            && Enabled(later, Extend(b)) && IsReady(Do(later, Extend(b)), b)
  {
  }

  /** Once it has closed, a new instance can do the same at once; and without closing, when two
      minutes have gone by. */
  lemma LockIsHandedOn(s: Cluster, b: Client)
    requires IsReady(s, b)
    ensures Do(s, Close(b)).locks.entry.None? && !Enabled(Do(s, Close(b)), Execute(b))
    ensures Do(s, Wait(120)).locks.entry.value.expires <= Do(s, Wait(120)).locks.now
  {
  }

  /** Why collecting waits: the object of a closed instance releases again when it is collected, and
      that deletes the entry of whoever holds the lock by then. */
  lemma LateCollectionFreesTheLock(s: Cluster, b: Client, c: Client)
    requires Enabled(s, Collect(b)) && Is(s.locks, b, Released) && Is(s.locks, c, Holding)
    ensures Do(s, Collect(b)).locks.entry.None? && Is(Do(s, Collect(b)).locks, c, Holding)
  {
  }
}
