/** Progress of the scheduler: bounded waiting under every policy. */
module SchedulerFairness {
  import opened Common
  import opened Scheduling
  import opened SchedulerInvariant

  // ----- bounded waiting at the front queue ------------------------------------

  /** The queue that is always served first. */
  function Front(c: Config): (q: nat) {
    if c.kind.Mlfq? then 0 else READY
  }

  /** The longest slice a process served from the front queue gets. */
  function Quantum(c: Config): (n: nat) {
    if c.kind.Mlfq? then 10 else 40
  }

  /** Process `p` waits at position `k` of queue `q` while another one runs. */
  ghost predicate WaitsAt(s: Sched, q: nat, k: nat, p: nat, pid: nat) {
    && Inv(s) && s.config.preemption && s.current.Some?
    && q < QUEUES && k < |s.queues[q]| && s.queues[q][k] == p
    && s.procs[p].pid == pid
  }

  /** Upper bound on the ticks until the process at position `k` of the front queue runs. */
  ghost function Wait(s: Sched, k: nat): (n: int)
    requires Shape(s) && s.current.Some?
  {
    Remaining(s.procs[s.current.value]) + Quantum(s.config) * k
  }

  /** What a step does to a process waiting in the front queue. */
  ghost predicate Closer(s: Sched, r: Sched, k: nat, p: nat, pid: nat, cost: nat)
    requires Shape(s) && s.current.Some?
  {
    || r.current == Some(p)
    || exists k': nat ::
         WaitsAt(r, Front(s.config), k', p, pid) && r.config == s.config && Wait(r, k') + cost <= Wait(s, k)
  }

  /** Dispatching drops the head of the served queue; the other waiting processes keep their order. */
  lemma ScheduleDropsHead(s: Sched, q: nat)
    requires Shape(s) && q < QUEUES && Served(s).Some?
    ensures s.queues[q][if Served(s).value == q then 1 else 0..] <= Schedule(s).queues[q]
    ensures Schedule(s).current == Some(s.queues[Served(s).value][0])
    ensures forall i :: 0 <= i < MAX_PROCESSES ==> Schedule(s).procs[i].pid == s.procs[i].pid
    ensures Schedule(s).config == s.config && Schedule(s).ticks == s.ticks && Schedule(s).lastBoost == s.lastBoost
  {
  }

  /** A process served from the front queue runs at most one quantum. */
  lemma FrontSlice(s: Sched)
    requires Core(s, {}) && Served(s) == Some(Front(s.config))
    ensures var r := Schedule(s); Remaining(r.procs[s.queues[Front(s.config)][0]]) <= Quantum(s.config)
  {
    var n := s.queues[Front(s.config)][0];
    assert ProcOk(s, n) && QueueOk(s, Front(s.config), {});
  }

  /** The front process is the next one dispatched, whatever ran before. */
  lemma ScheduleServesFront(s: Sched, k: nat, p: nat, pid: nat)
    requires Core(s, {}) && s.config.preemption
    requires k < |s.queues[Front(s.config)]| && s.queues[Front(s.config)][k] == p && s.procs[p].pid == pid
    ensures Schedule(s).config == s.config
    ensures k == 0 ==> Schedule(s).current == Some(p)
    ensures k > 0 ==> WaitsAt(Schedule(s), Front(s.config), k - 1, p, pid)
    ensures k > 0 ==> Wait(Schedule(s), k - 1) <= Quantum(s.config) * k
  {
    InvSchedule(s);
    var f := Front(s.config);
    assert Served(s) == Some(f);
    ScheduleDropsHead(s, f);
    FrontSlice(s);
    if k > 0 {
      assert Schedule(s).queues[f][k - 1] == p;
      assert Quantum(s.config) + Quantum(s.config) * (k - 1) == Quantum(s.config) * k;
    }
  }

  /** Yielding serves the front process as well: the yielding one queues behind it. */
  lemma YieldServesFront(s: Sched, k: nat, p: nat, pid: nat)
    requires Core(s, {}) && s.config.preemption && (s.current.Some? ==> s.procs[s.current.value].phase == Running)
    requires k < |s.queues[Front(s.config)]| && s.queues[Front(s.config)][k] == p && s.procs[p].pid == pid
    ensures Yield(s).config == s.config
    ensures if k == 0 then Yield(s).current == Some(p)
            else WaitsAt(Yield(s), Front(s.config), k - 1, p, pid) && Wait(Yield(s), k - 1) <= Quantum(s.config) * k
  {
    CoreRelease(s);
    var r := Release(s);
    assert r.queues[Front(s.config)][k] == p;
    assert QueueOk(s, Front(s.config), {});
    assert r.procs[p].pid == pid;
    ScheduleServesFront(r, k, p, pid);
  }

  lemma ChargeWaits(s: Sched, q: nat, k: nat, p: nat, pid: nat)
    requires WaitsAt(s, q, k, p, pid)
    ensures Core(Charge(s), {}) && Charge(s).queues == s.queues && Charge(s).procs[p] == s.procs[p]
    ensures Charge(s).current == s.current && Charge(s).procs[s.current.value].phase == Running
    ensures Charge(s).config == s.config && Charge(s).lastBoost == s.lastBoost && Charge(s).ticks == s.ticks + 1
    ensures !Expired(Charge(s)) ==>
              Inv(Charge(s)) && Remaining(Charge(s).procs[s.current.value]) + 1 == Remaining(s.procs[s.current.value])
  {
    CoreCharge(s);
    assert QueueOk(s, q, {});
  }

  /** The MLFQ part of a tick leaves the waiting process where it is in the front queue. */
  lemma SettleKeepsFront(s: Sched, k: nat, p: nat, pid: nat)
    requires WaitsAt(s, Front(s.config), k, p, pid)
    ensures WaitsAt(Settle(s), Front(s.config), k, p, pid) && Wait(Settle(s), k) == Wait(s, k)
  {
    InvSettle(s);
    assert QueueOk(s, Front(s.config), {});
    if s.config.kind.Mlfq? {
      InvAge(s);
      LevelsDisjoint(Age(s));
      assert s.queues[0][k] in Age(s).queues[0];
      assert s.current.value !in Lower(Age(s));
    }
  }

  /** A tick either serves the front queue or takes one tick off the running slice. */
  lemma PreemptCloser(s: Sched, k: nat, p: nat, pid: nat)
    requires WaitsAt(s, Front(s.config), k, p, pid)
    ensures Closer(s, Preempt(Charge(s)), k, p, pid, 1)
  {
    var f := Front(s.config);
    ChargeWaits(s, f, k, p, pid);
    var s1 := Charge(s);
    if Expired(s1) {
      YieldServesFront(s1, k, p, pid);
    } else {
      assert WaitsAt(s1, f, k, p, pid);
    }
  }

  lemma TickCloser(s: Sched, k: nat, p: nat, pid: nat)
    requires WaitsAt(s, Front(s.config), k, p, pid)
    ensures Closer(s, Tick(s), k, p, pid, 1)
  {
    hide Consistent;
    PreemptCloser(s, k, p, pid);
    var s2 := Preempt(Charge(s));
    if s2.current != Some(p) {
      var k2: nat :| WaitsAt(s2, Front(s.config), k2, p, pid) && s2.config == s.config &&
          Wait(s2, k2) + 1 <= Wait(s, k);
      SettleKeepsFront(s2, k2, p, pid);
    }
  }

  lemma CreateKeepsWaiting(s: Sched, priority: nat, q: nat, k: nat, p: nat, pid: nat)
    requires WaitsAt(s, q, k, p, pid) && priority < MAX_PRIORITY_LEVELS
    ensures WaitsAt(Create(s, priority), q, k, p, pid) && Create(s, priority).lastBoost == s.lastBoost
    ensures Create(s, priority).current == s.current
    ensures Create(s, priority).procs[s.current.value] == s.procs[s.current.value]
  {
    InvCreate(s, priority);
    assert QueueOk(s, q, {}) && ProcOk(s, s.current.value);
  }

  lemma CreateCloser(s: Sched, priority: nat, k: nat, p: nat, pid: nat)
    requires WaitsAt(s, Front(s.config), k, p, pid) && priority < MAX_PRIORITY_LEVELS
    ensures Closer(s, Create(s, priority), k, p, pid, 0)
  {
    CreateKeepsWaiting(s, priority, Front(s.config), k, p, pid);
    assert Wait(Create(s, priority), k) <= Wait(s, k);
  }

  /** Taking another element out moves an element forward at most. */
  lemma RemovalPosition(xs: seq<nat>, i: nat, k: nat) returns (k': nat)
    requires Distinct(xs) && k < |xs| && xs[k] != i
    ensures k' <= k && k' < |Without(xs, i)| && Without(xs, i)[k'] == xs[k]
  {
    k' := k;
    if i in xs {
      var j :| 0 <= j < |xs| && xs[j] == i;
      WithoutAt(xs, j);
      if j < k { k' := k - 1; }
    } else {
      WithoutAbsent(xs, i);
    }
  }

  /** Ending another process moves a waiting one forward at most. */
  lemma RetireWaits(s: Sched, i: nat, q: nat, k: nat, p: nat, pid: nat) returns (k': nat)
    requires WaitsAt(s, q, k, p, pid) && i < MAX_PROCESSES && i != p
    ensures k' <= k && k' < |Retire(s, i).queues[q]| && Retire(s, i).queues[q][k'] == p
    ensures Retire(s, i).procs[p] == s.procs[p]
  {
    assert QueueOk(s, q, {});
    if q == QueueOf(s.config, s.procs[i]) {
      k' := RemovalPosition(s.queues[q], i, k);
    } else {
      k' := k;
    }
  }

  /** If ending `victim` also ends the running process, it is the running process. */
  lemma VictimIsCurrent(s: Sched, victim: nat, i: nat)
    requires Inv(s) && s.current.Some? && FirstMatch(s.procs, victim, 0) == Some(i)
    ensures Retire(s, i).procs[s.current.value].pid == victim <==> s.current == Some(i)
  {
    assert ProcOk(s, s.current.value);
    assert Retire(s, i).procs[s.current.value].pid == s.procs[s.current.value].pid;
  }

  lemma TerminateCloser(s: Sched, victim: nat, k: nat, p: nat, pid: nat)
    requires WaitsAt(s, Front(s.config), k, p, pid) && victim != pid
    ensures Closer(s, Terminate(s, victim), k, p, pid, 0)
  {
    hide Consistent;
    InvTerminate(s, victim);
    var f := Front(s.config);
    if FirstMatch(s.procs, victim, 0).Some? {
      var i := FirstMatch(s.procs, victim, 0).value;
      CoreRetire(s, i);
      VictimIsCurrent(s, victim, i);
      var s1 := Retire(s, i);
      var k' := RetireWaits(s, i, f, k, p, pid);
      assert Quantum(s.config) * k' <= Quantum(s.config) * k;
      if s.current == Some(i) {
        ScheduleServesFront(s1.(current := None), k', p, pid);
      } else {
        assert WaitsAt(s1, f, k', p, pid) && Wait(s1, k') <= Wait(s, k);
      }
    } else {
      assert WaitsAt(s, f, k, p, pid);
    }
  }

  lemma StepCloser(s: Sched, e: Event, k: nat, p: nat, pid: nat)
    requires WaitsAt(s, Front(s.config), k, p, pid) && Legal(e) && e != ETerminate(pid)
    ensures Closer(s, Step(s, e), k, p, pid, if e.ETick? then 1 else 0)
  {
    hide Consistent;
    assert Quantum(s.config) * k <= Wait(s, k);
    match e
    case ECreate(priority) => CreateCloser(s, priority, k, p, pid);
    case ETick => TickCloser(s, k, p, pid);
    case EYield => YieldServesFront(s, k, p, pid);
    case ESchedule => ScheduleServesFront(s, k, p, pid);
    case ETerminate(victim) => TerminateCloser(s, victim, k, p, pid);
  }

  /** During the run `es` from `s`, process `p` gets the CPU. */
  ghost predicate Dispatched(s: Sched, es: seq<Event>, p: nat)
    requires Shape(s) && AllLegal(es)
  {
    exists i :: 0 <= i <= |es| && Run(s, es[..i]).current == Some(p)
  }

  lemma DispatchedNow(s: Sched, es: seq<Event>, p: nat)
    requires Shape(s) && AllLegal(es) && s.current == Some(p)
    ensures Dispatched(s, es, p)
  {
    assert Run(s, es[..0]).current == Some(p);
  }

  lemma DispatchedLater(s: Sched, es: seq<Event>, p: nat)
    requires Shape(s) && AllLegal(es) && es != [] && Dispatched(Step(s, es[0]), es[1..], p)
    ensures Dispatched(s, es, p)
  {
    var i :| 0 <= i <= |es[1..]| && Run(Step(s, es[0]), es[1..][..i]).current == Some(p);
    assert es[..i + 1][1..] == es[1..][..i];
    assert Run(s, es[..i + 1]).current == Some(p);
  }

  /** Waiting in the front queue ends once the measure has ticked away. */
  lemma {:induction false} FrontWaitEnds(s: Sched, es: seq<Event>, k: nat, p: nat, pid: nat)
    requires WaitsAt(s, Front(s.config), k, p, pid) && AllLegal(es) && ETerminate(pid) !in es
    requires Ticks(es) >= Wait(s, k)
    ensures Dispatched(s, es, p)
    decreases es
  {
    hide Consistent;
    StepCloser(s, es[0], k, p, pid);
    var r := Step(s, es[0]);
    if r.current == Some(p) {
      DispatchedNow(r, es[1..], p);
    } else {
      var k' :| WaitsAt(r, Front(s.config), k', p, pid) && r.config == s.config &&
          Wait(r, k') + (if es[0].ETick? then 1 else 0) <= Wait(s, k);
      FrontWaitEnds(r, es[1..], k', p, pid);
    }
    DispatchedLater(s, es, p);
  }

  /**
   * Bounded waiting at MLFQ level 0: position `k` runs within 80 + 10k ticks,
   * whatever else is created, yields or ends meanwhile.
   */
  lemma LevelZeroWait(s: Sched, es: seq<Event>, k: nat, p: nat, pid: nat)
    requires s.config.kind.Mlfq? && WaitsAt(s, 0, k, p, pid)
    requires AllLegal(es) && ETerminate(pid) !in es
    requires Ticks(es) >= 80 + 10 * k
    ensures Dispatched(s, es, p)
  {
    FrontWaitEnds(s, es, k, p, pid);
  }

  /** Bounded waiting in the single ready queue: position `k` runs within 40(k + 1) ticks. */
  lemma ReadyQueueWait(s: Sched, es: seq<Event>, k: nat, p: nat, pid: nat)
    requires !s.config.kind.Mlfq? && WaitsAt(s, READY, k, p, pid)
    requires AllLegal(es) && ETerminate(pid) !in es
    requires Ticks(es) >= 40 * (k + 1)
    ensures Dispatched(s, es, p)
  {
    FrontWaitEnds(s, es, k, p, pid);
  }

  // ----- bounded waiting at any MLFQ level --------------------------------------

  ghost function TicksToBoost(s: Sched): (n: int) {
    var d := s.config.boostInterval - (s.ticks - s.lastBoost);
    if d >= 1 then d else 1
  }

  /** Number of processes queued under MLFQ. */
  function Waiting(s: Sched): (n: nat)
    requires Shape(s)
  {
    |s.queues[0]| + |s.queues[1]| + |s.queues[2]| + |s.queues[3]|
  }

  /** The step is a tick that boosts. */
  predicate Boosts(s: Sched, e: Event)
    requires Shape(s)
  {
    e.ETick? && s.current.Some? && s.config.kind.Mlfq? && BoostDue(Preempt(Charge(s)))
  }

  /** How many processes are queued at the first boost of a run, 0 when there is none. */
  function QueuedAtBoost(s: Sched, es: seq<Event>): (n: nat)
    requires Shape(s) && AllLegal(es)
    decreases es
  {
    if es == [] then 0
    else if Boosts(s, es[0]) then Waiting(Step(s, es[0]))
    else QueuedAtBoost(Step(s, es[0]), es[1..])
  }

  /** A step dispatches the process, boosts it, or brings the boost closer. */
  ghost predicate Nearer(s: Sched, r: Sched, p: nat, pid: nat, ticked: bool, boosted: bool)
    requires Shape(s)
  {
    || r.current == Some(p)
    || (boosted && exists k: nat :: WaitsAt(r, 0, k, p, pid) && r.config == s.config && k < Waiting(r))
    || (!boosted && exists q: nat, k: nat ::
          && WaitsAt(r, q, k, p, pid) && r.config == s.config
          && TicksToBoost(r) + (if ticked then 1 else 0) <= TicksToBoost(s))
  }

  /** Dispatching serves some queue head; everybody else stays queued. */
  lemma ScheduleKeepsWaiting(s: Sched, q: nat, k: nat, p: nat, pid: nat)
    requires Core(s, {}) && s.config.preemption && s.config.kind.Mlfq?
    requires q < MAX_PRIORITY_LEVELS && k < |s.queues[q]| && s.queues[q][k] == p && s.procs[p].pid == pid
    ensures var r := Schedule(s);
            && r.config == s.config && r.ticks == s.ticks && r.lastBoost == s.lastBoost
            && (r.current == Some(p) || exists k': nat :: WaitsAt(r, q, k', p, pid))
  {
    InvSchedule(s);
    ScheduleDropsHead(s, q);
    var r := Schedule(s);
    var g := Served(s).value;
    if s.queues[g][0] != p {
      var k' := if g == q then k - 1 else k;
      assert r.queues[q][k'] == p;
      assert WaitsAt(r, q, k', p, pid);
    }
  }

  lemma YieldKeepsWaiting(s: Sched, q: nat, k: nat, p: nat, pid: nat)
    requires Core(s, {}) && s.config.preemption && s.config.kind.Mlfq?
    requires s.current.Some? ==> s.procs[s.current.value].phase == Running
    requires q < MAX_PRIORITY_LEVELS && k < |s.queues[q]| && s.queues[q][k] == p && s.procs[p].pid == pid
    ensures var r := Yield(s);
            && r.config == s.config && r.ticks == s.ticks && r.lastBoost == s.lastBoost
            && (r.current == Some(p) || exists k': nat :: WaitsAt(r, q, k', p, pid))
  {
    CoreRelease(s);
    assert QueueOk(s, q, {});
    ScheduleKeepsWaiting(Release(s), q, k, p, pid);
  }

  /** Where the queues strung together hold what one of them held. */
  lemma Gathered(queues: seq<seq<nat>>, q: nat, k: nat) returns (k': nat)
    requires |queues| >= 4 && q < 4 && k < |queues[q]|
    ensures k' < |queues[0]| + |queues[1]| + |queues[2]| + |queues[3]|
    ensures (queues[0] + (queues[1] + queues[2] + queues[3]))[k'] == queues[q][k]
  {
    k' := k + (if q > 0 then |queues[0]| else 0) + (if q > 1 then |queues[1]| else 0)
          + (if q > 2 then |queues[2]| else 0);
  }

  /** A boost puts a waiting process of any level into level 0. */
  lemma BoostReaches(s: Sched, q: nat, k: nat, p: nat, pid: nat)
    requires WaitsAt(s, q, k, p, pid) && s.config.kind.Mlfq? && q < MAX_PRIORITY_LEVELS
    ensures var r := Boost(s).(lastBoost := s.ticks);
            exists k': nat :: WaitsAt(r, 0, k', p, pid) && r.config == s.config && k' < Waiting(r)
  {
    InvBoost(s);
    var r := Boost(s).(lastBoost := s.ticks);
    var k' := Gathered(s.queues, q, k);
    assert WaitsAt(r, 0, k', p, pid) && k' < Waiting(r);
  }

  /** A tick dispatches the process or leaves it waiting in its level. */
  lemma PreemptKeepsWaiting(s: Sched, q: nat, k: nat, p: nat, pid: nat)
    requires WaitsAt(s, q, k, p, pid) && s.config.kind.Mlfq? && q < MAX_PRIORITY_LEVELS
    ensures var r := Preempt(Charge(s));
            && r.config == s.config && r.ticks == s.ticks + 1 && r.lastBoost == s.lastBoost
            && (r.current == Some(p) || exists k': nat :: WaitsAt(r, q, k', p, pid))
  {
    ChargeWaits(s, q, k, p, pid);
    var s1 := Charge(s);
    if Expired(s1) {
      YieldKeepsWaiting(s1, q, k, p, pid);
    } else {
      assert WaitsAt(s1, q, k, p, pid);
    }
  }

  /** The MLFQ part of a tick boosts a waiting process or leaves it in place. */
  lemma SettleNearer(s: Sched, q: nat, k: nat, p: nat, pid: nat)
    requires WaitsAt(s, q, k, p, pid) && s.config.kind.Mlfq? && q < MAX_PRIORITY_LEVELS
    ensures var r := Settle(s);
            if BoostDue(s) then exists k': nat :: WaitsAt(r, 0, k', p, pid) && k' < Waiting(r)
            else WaitsAt(r, q, k, p, pid) && r.lastBoost == s.lastBoost
  {
    InvAge(s);
    assert QueueOk(s, q, {});
    assert WaitsAt(Age(s), q, k, p, pid);
    if BoostDue(s) {
      BoostReaches(Age(s), q, k, p, pid);
      assert Settle(s) == Boost(Age(s)).(lastBoost := Age(s).ticks);
    }
  }

  lemma TickNearer(s: Sched, q: nat, k: nat, p: nat, pid: nat)
    requires WaitsAt(s, q, k, p, pid) && s.config.kind.Mlfq? && q < MAX_PRIORITY_LEVELS
    ensures Nearer(s, Tick(s), p, pid, true, Boosts(s, ETick))
  {
    hide Consistent;
    PreemptKeepsWaiting(s, q, k, p, pid);
    var s2 := Preempt(Charge(s));
    if s2.current != Some(p) {
      var k2: nat :| WaitsAt(s2, q, k2, p, pid);
      SettleNearer(s2, q, k2, p, pid);
    }
  }

  lemma TerminateNearer(s: Sched, victim: nat, q: nat, k: nat, p: nat, pid: nat)
    requires WaitsAt(s, q, k, p, pid) && s.config.kind.Mlfq? && q < MAX_PRIORITY_LEVELS && victim != pid
    ensures Nearer(s, Terminate(s, victim), p, pid, false, false)
  {
    hide Consistent;
    InvTerminate(s, victim);
    if FirstMatch(s.procs, victim, 0).Some? {
      var i := FirstMatch(s.procs, victim, 0).value;
      CoreRetire(s, i);
      VictimIsCurrent(s, victim, i);
      var s1 := Retire(s, i);
      var k' := RetireWaits(s, i, q, k, p, pid);
      if s.current == Some(i) {
        ScheduleKeepsWaiting(s1.(current := None), q, k', p, pid);
      } else {
        assert WaitsAt(s1, q, k', p, pid);
      }
    }
  }

  lemma StepNearer(s: Sched, e: Event, q: nat, k: nat, p: nat, pid: nat)
    requires WaitsAt(s, q, k, p, pid) && s.config.kind.Mlfq? && q < MAX_PRIORITY_LEVELS
    requires Legal(e) && e != ETerminate(pid)
    ensures Nearer(s, Step(s, e), p, pid, e.ETick?, Boosts(s, e))
  {
    hide Consistent;
    match e
    case ECreate(priority) =>
      CreateKeepsWaiting(s, priority, q, k, p, pid);
    case ETick => TickNearer(s, q, k, p, pid);
    case EYield => YieldKeepsWaiting(s, q, k, p, pid);
    case ESchedule => ScheduleKeepsWaiting(s, q, k, p, pid);
    case ETerminate(victim) => TerminateNearer(s, victim, q, k, p, pid);
  }

  /** A process queued under MLFQ sits in one of the four levels. */
  lemma WaitsInLevel(s: Sched, q: nat, k: nat, p: nat, pid: nat)
    requires WaitsAt(s, q, k, p, pid) && s.config.kind.Mlfq?
    ensures q < MAX_PRIORITY_LEVELS
  {
    assert QueueOk(s, q, {});
  }

  lemma {:induction false} AnyWaitEnds(s: Sched, es: seq<Event>, q: nat, k: nat, p: nat, pid: nat)
    requires s.config.kind.Mlfq? && WaitsAt(s, q, k, p, pid)
    requires AllLegal(es) && ETerminate(pid) !in es
    requires Ticks(es) >= TicksToBoost(s) + 80 + 10 * QueuedAtBoost(s, es)
    ensures Dispatched(s, es, p)
    decreases es
  {
    hide Consistent, Boosts, TicksToBoost;
    BoostAhead(s);
    WaitsInLevel(s, q, k, p, pid);
    StepNearer(s, es[0], q, k, p, pid);
    var r := Step(s, es[0]);
    if r.current == Some(p) {
      DispatchedNow(r, es[1..], p);
    } else if Boosts(s, es[0]) {
      var k': nat :| WaitsAt(r, 0, k', p, pid) && r.config == s.config && k' < Waiting(r);
      LevelZeroWait(r, es[1..], k', p, pid);
    } else {
      var q', k' :| WaitsAt(r, q', k', p, pid) && r.config == s.config &&
          TicksToBoost(r) + (if es[0].ETick? then 1 else 0) <= TicksToBoost(s);
      AnyWaitEnds(r, es[1..], q', k', p, pid);
    }
    DispatchedLater(s, es, p);
  }

  lemma BoostAhead(s: Sched)
    ensures TicksToBoost(s) >= 1
  {
  }

  /**
   * Bounded waiting under MLFQ from any level: a queued process runs within one
   * boost interval plus 80 ticks plus 10 for every process queued at the next boost.
   */
  lemma AnyLevelWait(s: Sched, es: seq<Event>, q: nat, k: nat, p: nat, pid: nat)
    requires s.config.kind.Mlfq? && s.config.boostInterval >= 1 && WaitsAt(s, q, k, p, pid)
    requires AllLegal(es) && ETerminate(pid) !in es
    requires Ticks(es) >= s.config.boostInterval + 80 + 10 * QueuedAtBoost(s, es)
    ensures Dispatched(s, es, p)
  {
    AnyWaitEnds(s, es, q, k, p, pid);
  }

  /** The table holds 64 processes, one of which runs: at most 63 wait. */
  lemma AtMost63Wait(s: Sched)
    requires Inv(s) && s.config.kind.Mlfq? && s.current.Some?
    ensures Waiting(s) <= 63
  {
    LevelsDisjoint(s);
    assert QueueOk(s, 0, {});
    var all := s.queues[0] + Lower(s) + [s.current.value];
    assert forall x :: x in s.queues[0] + Lower(s) ==> s.procs[x].phase == Ready;
    DistinctBelow(all, MAX_PROCESSES);
  }

  /** A tick never leaves the processor idle. */
  lemma TickRuns(s: Sched)
    requires Shape(s) && s.current.Some?
    ensures Tick(s).current.Some?
  {
  }

  lemma {:induction false} AtMost63AtBoost(s: Sched, es: seq<Event>)
    requires Inv(s) && AllLegal(es)
    ensures QueuedAtBoost(s, es) <= 63
    decreases es
  {
    hide Consistent, Waiting;
    if es != [] {
      InvStep(s, es[0]);
      if Boosts(s, es[0]) {
        TickRuns(s);
        AtMost63Wait(Step(s, es[0]));
      } else {
        AtMost63AtBoost(Step(s, es[0]), es[1..]);
      }
    }
  }

  /** An absolute bound: no queued process waits longer than one boost interval plus 710 ticks. */
  lemma AnyLevelWaitAbsolute(s: Sched, es: seq<Event>, q: nat, k: nat, p: nat, pid: nat)
    requires s.config.kind.Mlfq? && s.config.boostInterval >= 1 && WaitsAt(s, q, k, p, pid)
    requires AllLegal(es) && ETerminate(pid) !in es
    requires Ticks(es) >= s.config.boostInterval + 710
    ensures Dispatched(s, es, p)
  {
    AtMost63AtBoost(s, es);
    AnyLevelWait(s, es, q, k, p, pid);
  }
}
