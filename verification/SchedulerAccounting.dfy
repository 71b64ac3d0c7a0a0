/** Rotation of the single ready queue and conservation of CPU time over runs. */
module SchedulerAccounting {
  import opened Common
  import opened Scheduling
  import opened SchedulerInvariant
  import opened Rotation

  // ----- rotation ----------------------------------------------------------------

  /** The running process followed by the ready queue. */
  function Cycle(s: Sched): (r: seq<nat>)
    requires Shape(s) && s.current.Some?
  {
    [s.current.value] + s.queues[READY]
  }

  /** No process arrives or ends. */
  predicate Closed(es: seq<Event>) {
    forall i :: 0 <= i < |es| ==> es[i].ETick? || es[i].EYield? || es[i].ESchedule?
  }

  /** `r` is `s` after `d` dispatches. */
  ghost predicate Rotated(s: Sched, r: Sched, d: nat)
    requires Shape(s) && s.current.Some? && Shape(r)
  {
    r.current.Some? && r.switches == s.switches + d && Cycle(r) == Turned(Cycle(s), d)
  }

  /** Dispatching turns the cycle by one, unless nobody else is ready. */
  lemma ScheduleRotates(s: Sched)
    requires Shape(s) && !s.config.kind.Mlfq? && s.current.Some? && s.procs[s.current.value].phase == Running
    requires s.current.value !in s.queues[READY]
    requires QueueOf(s.config, s.procs[s.current.value]) == READY
    ensures Rotated(s, Schedule(s), if s.queues[READY] == [] then 0 else 1)
  {
    if s.queues[READY] != [] {
      assert Cycle(s)[1..] == s.queues[READY];
      assert Cycle(Schedule(s)) == Cycle(s)[1..] + [Cycle(s)[0]];
    }
  }

  /** So does yielding. */
  lemma YieldRotates(s: Sched)
    requires Shape(s) && !s.config.kind.Mlfq? && s.current.Some?
    requires s.current.value !in s.queues[READY]
    ensures Rotated(s, Yield(s), if s.queues[READY] == [] then 0 else 1)
  {
    var c := s.current.value;
    assert Release(s).queues[READY] == s.queues[READY] + [c];
    if s.queues[READY] != [] {
      assert Cycle(s)[1..] == s.queues[READY];
      assert Cycle(Yield(s)) == Cycle(s)[1..] + [Cycle(s)[0]];
    } else {
      assert Cycle(Yield(s)) == [c];
    }
  }

  lemma StepRotates(s: Sched, e: Event) returns (d: nat)
    requires Inv(s) && !s.config.kind.Mlfq? && s.current.Some?
    requires e.ETick? || e.EYield? || e.ESchedule?
    ensures Rotated(s, Step(s, e), d)
  {
    var turn := if s.queues[READY] == [] then 0 else 1;
    assert QueueOk(s, READY, {});
    match e
    case EYield =>
      YieldRotates(s);
      d := turn;
    case ESchedule =>
      ScheduleRotates(s);
      d := turn;
    case ETick =>
      var s1 := Charge(s);
      assert Cycle(s1) == Cycle(s);
      if Expired(s1) {
        YieldRotates(s1);
        d := turn;
      } else {
        d := 0;
      }
  }

  lemma {:induction false} RunRotates(s: Sched, es: seq<Event>) returns (d: nat)
    requires Inv(s) && !s.config.kind.Mlfq? && s.current.Some? && Closed(es)
    ensures Rotated(s, Run(s, es), d)
    decreases es
  {
    hide Consistent, Rotated, Cycle, Step;
    if es == [] {
      d := 0;
      RotatedNot(s);
    } else {
      assert es[0].ETick? || es[0].EYield? || es[0].ESchedule?;
      var r := Step(s, es[0]);
      var d0 := StepRotates(s, es[0]);
      InvStep(s, es[0]);
      RotatedRuns(s, r, d0);
      var d1 := RunRotates(r, es[1..]);
      RotatedTwice(s, r, Run(s, es), d0, d1);
      d := d0 + d1;
    }
  }

  lemma RotatedNot(s: Sched)
    requires Shape(s) && s.current.Some?
    ensures Rotated(s, s, 0)
  {
  }

  lemma RotatedRuns(s: Sched, r: Sched, d: nat)
    requires Shape(s) && s.current.Some? && Shape(r) && Rotated(s, r, d)
    ensures r.current.Some?
  {
  }

  lemma RotatedTwice(s: Sched, r: Sched, u: Sched, d: nat, e: nat)
    requires Shape(s) && s.current.Some? && Shape(r) && Rotated(s, r, d)
    requires r.current.Some? && Shape(u) && Rotated(r, u, e)
    ensures Rotated(s, u, d + e)
  {
    TurnedTwice(Cycle(s), d, e);
  }

  lemma RotatedHead(s: Sched, r: Sched, d: nat)
    requires Shape(s) && s.current.Some? && Shape(r) && Rotated(s, r, d)
    ensures r.current == Some(Around(Cycle(s), d))
  {
    assert Cycle(r)[0] == r.current.value;
  }

  /**
   * Round robin: with nobody arriving or leaving, after `d` context switches the
   * running process is number `d mod n` of the initial order.
   */
  lemma RoundRobinRotates(s: Sched, es: seq<Event>) returns (d: nat)
    requires Inv(s) && !s.config.kind.Mlfq? && s.current.Some? && Closed(es)
    ensures Run(s, es).switches == s.switches + d
    ensures Run(s, es).current == Some(Cycle(s)[d % |Cycle(s)|])
  {
    d := RunRotates(s, es);
    RotatedHead(s, Run(s, es), d);
  }

  // ----- conservation of CPU time --------------------------------------------------

  function Charged(p: Proc): (n: nat) {
    if Live(p) then p.timeUsed else 0
  }

  function TotalCharged(procs: seq<Proc>): (n: nat) {
    if procs == [] then 0 else Charged(procs[0]) + TotalCharged(procs[1..])
  }

  /** CPU time on record: of ended processes in the statistics, of live ones in the table. */
  function Recorded(s: Sched): (n: nat) {
    s.totalRuntime + TotalCharged(s.procs)
  }

  /** Ticks of a run that found a process running. */
  function BusyTicks(s: Sched, es: seq<Event>): (n: nat)
    requires Shape(s) && AllLegal(es)
    decreases es
  {
    if es == [] then 0
    else (if es[0].ETick? && s.current.Some? then 1 else 0) + BusyTicks(Step(s, es[0]), es[1..])
  }

  lemma {:induction false} TotalChargedSame(a: seq<Proc>, b: seq<Proc>)
    requires |a| == |b| && forall i :: 0 <= i < |a| ==> Charged(a[i]) == Charged(b[i])
    ensures TotalCharged(a) == TotalCharged(b)
  {
    if a != [] { TotalChargedSame(a[1..], b[1..]); }
  }

  lemma {:induction false} TotalChargedUpdate(a: seq<Proc>, i: nat, p: Proc)
    requires i < |a|
    ensures TotalCharged(a[i := p]) == TotalCharged(a) - Charged(a[i]) + Charged(p)
  {
    if i == 0 {
      assert a[0 := p][1..] == a[1..];
    } else {
      TotalChargedUpdate(a[1..], i - 1, p);
      assert a[i := p][1..] == a[1..][i - 1 := p];
    }
  }

  /** Dispatching charges nobody. */
  lemma ScheduleCharges(s: Sched)
    requires Shape(s)
    requires Served(s).Some? ==> Live(s.procs[s.queues[Served(s).value][0]])
    requires s.current.Some? ==> Live(s.procs[s.current.value])
    ensures TotalCharged(Schedule(s).procs) == TotalCharged(s.procs) && Schedule(s).totalRuntime == s.totalRuntime
  {
    TotalChargedSame(Schedule(s).procs, s.procs);
  }

  /** Queue heads and the running process are live. */
  lemma CandidatesLive(s: Sched)
    requires Core(s, {})
    requires s.current.Some? ==> s.procs[s.current.value].phase in {Ready, Running}
    ensures Served(s).Some? ==> Live(s.procs[s.queues[Served(s).value][0]])
    ensures s.current.Some? ==> Live(s.procs[s.current.value])
  {
    if Served(s).Some? { assert QueueOk(s, Served(s).value, {}); }
    if s.current.Some? { assert ProcOk(s, s.current.value); }
  }

  lemma YieldCharges(s: Sched)
    requires Core(s, {}) && (s.current.Some? ==> s.procs[s.current.value].phase == Running)
    ensures TotalCharged(Yield(s).procs) == TotalCharged(s.procs) && Yield(s).totalRuntime == s.totalRuntime
  {
    CoreRelease(s);
    CandidatesLive(s);
    CandidatesLive(Release(s));
    ScheduleCharges(Release(s));
    TotalChargedSame(Release(s).procs, s.procs);
  }

  lemma SettleCharges(s: Sched)
    requires Shape(s)
    ensures TotalCharged(Settle(s).procs) == TotalCharged(s.procs)
  {
    TotalChargedSame(Age(s).procs, s.procs);
    TotalChargedSame(Boost(Age(s)).procs, Age(s).procs);
  }

  lemma PreemptCharges(s: Sched)
    requires Core(s, {}) && (s.current.Some? ==> s.procs[s.current.value].phase == Running)
    ensures TotalCharged(Preempt(s).procs) == TotalCharged(s.procs)
  {
    YieldCharges(s);
  }

  lemma ChargeCharges(s: Sched)
    requires Shape(s) && (s.current.Some? ==> Live(s.procs[s.current.value]))
    ensures TotalCharged(Charge(s).procs) == TotalCharged(s.procs) + (if s.current.Some? then 1 else 0)
  {
    if s.current.Some? {
      TotalChargedUpdate(s.procs, s.current.value, Charge(s).procs[s.current.value]);
    }
  }

  lemma TickCharges(s: Sched)
    requires Inv(s)
    ensures Recorded(Tick(s)) == Recorded(s) + (if s.current.Some? then 1 else 0)
  {
    hide Consistent;
    CandidatesLive(s);
    ChargeCharges(s);
    if s.current.Some? {
      CoreCharge(s);
      PreemptCharges(Charge(s));
      SettleCharges(Preempt(Charge(s)));
    }
  }

  lemma TerminateCharges(s: Sched, pid: nat)
    requires Inv(s)
    ensures Recorded(Terminate(s, pid)) == Recorded(s)
  {
    if FirstMatch(s.procs, pid, 0).Some? {
      var i := FirstMatch(s.procs, pid, 0).value;
      CoreRetire(s, i);
      assert ProcOk(s, i);
      var s1 := Retire(s, i);
      TotalChargedUpdate(s.procs, i, s1.procs[i]);
      if s.current.Some? {
        assert ProcOk(s, s.current.value);
        assert s1.procs[s.current.value].pid == s.procs[s.current.value].pid;
      }
      if s1.current.Some? && s1.procs[s1.current.value].pid == pid {
        assert s.current == Some(i);
        CandidatesLive(s1.(current := None));
        ScheduleCharges(s1.(current := None));
      }
    }
  }

  lemma CreateCharges(s: Sched, priority: nat)
    requires Inv(s) && priority < MAX_PRIORITY_LEVELS
    ensures Recorded(Create(s, priority)) == Recorded(s)
  {
    if FirstFree(s.procs, 0).Some? {
      var i := FirstFree(s.procs, 0).value;
      TotalChargedUpdate(s.procs, i, Create(s, priority).procs[i]);
    }
  }

  lemma StepCharges(s: Sched, e: Event)
    requires Inv(s) && Legal(e)
    ensures Recorded(Step(s, e)) == Recorded(s) + (if e.ETick? && s.current.Some? then 1 else 0)
  {
    hide Consistent;
    match e
    case ECreate(p) => CreateCharges(s, p);
    case ETick => TickCharges(s);
    case EYield => YieldCharges(s);
    case ESchedule => CandidatesLive(s); ScheduleCharges(s);
    case ETerminate(pid) => TerminateCharges(s, pid);
  }

  lemma {:induction false} RunCharges(s: Sched, es: seq<Event>)
    requires Inv(s) && AllLegal(es)
    ensures Recorded(Run(s, es)) == Recorded(s) + BusyTicks(s, es)
    ensures Run(s, es).ticks == s.ticks + Ticks(es) && BusyTicks(s, es) <= Ticks(es)
    decreases es
  {
    if es != [] {
      StepCharges(s, es[0]);
      InvStep(s, es[0]);
      RunCharges(Step(s, es[0]), es[1..]);
    }
  }

  /**
   * CPU time is conserved from initialisation on: what is on record is exactly the
   * busy ticks, hence at most the uptime, and no process used more than its age.
   */
  lemma CpuTimeConserved(c: Config, es: seq<Event>)
    requires AllLegal(es)
    ensures var r := Run(Init(c), es);
            && Recorded(r) == BusyTicks(Init(c), es) <= r.ticks
            && forall i :: 0 <= i < MAX_PROCESSES && Live(r.procs[i]) ==>
                 r.procs[i].timeUsed <= r.ticks - r.procs[i].timeCreated
  {
    InvInit(c);
    InvRun(Init(c), es);
    RunCharges(Init(c), es);
    NothingCharged(Init(c).procs);
    var r := Run(Init(c), es);
    forall i | 0 <= i < MAX_PROCESSES && Live(r.procs[i])
      ensures r.procs[i].timeUsed <= r.ticks - r.procs[i].timeCreated
    {
      assert ProcOk(r, i);
    }
  }

  lemma NothingCharged(procs: seq<Proc>)
    requires forall i :: 0 <= i < |procs| ==> procs[i].pid == 0
    ensures TotalCharged(procs) == 0
  {
  }
}
