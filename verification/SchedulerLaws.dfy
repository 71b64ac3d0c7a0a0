/**
 * What the calls of the scheduler do, told without the functions that define
 * them: who runs afterwards, with how many ticks, who is queued where, and what
 * stays.  Slices, boosts and time stamps are numbers here.
 */
module SchedulerLaws {
  import opened Common
  import opened Scheduling
  import opened SchedulerInvariant

  // ----- slices and levels as numbers --------------------------------------------

  function TwoTo(n: nat): (r: nat) {
    if n == 0 then 1 else 2 * TwoTo(n - 1)
  }

  /** The slice of an MLFQ level: 10, 20, 40, 80 for the configured levels, 0 for the others. */
  function LevelTicks(c: Config, level: nat): (n: nat) {
    if level < c.levels then 10 * TwoTo(level) else 0
  }

  /** The queue of a process: its level, or the single ready queue. */
  function Home(s: Sched, i: nat): (q: nat)
    requires Shape(s) && i < MAX_PROCESSES
  {
    if s.config.kind.Mlfq? then s.procs[i].priority else 4
  }

  /** Queue `q` is nonempty and no queue before it is. */
  ghost predicate First(s: Sched, q: nat)
    requires Shape(s)
  {
    && q < 5 && s.queues[q] != []
    && (if s.config.kind.Mlfq? then q < 4 && forall j :: 0 <= j < q ==> s.queues[j] == [] else q == 4)
  }

  ghost predicate NobodyQueued(s: Sched)
    requires Shape(s)
  {
    forall q :: 0 <= q < 5 ==> s.queues[q] == []
  }

  /** The head of queue `q` leaves it and `c`, if anyone, goes behind queue `g`. */
  function Passed(queues: seq<seq<nat>>, q: nat, c: Option<nat>, g: nat): (r: seq<seq<nat>>)
    requires |queues| == 5 && q < 5 && g < 5 && queues[q] != []
    ensures |r| == 5
  {
    var m := queues[q := queues[q][1..]];
    if c.None? then m else m[g := m[g] + [c.value]]
  }

  /** A process as a dispatch from queue `q` at tick `now` starts it. */
  function Started(c: Config, p: Proc, q: nat, now: nat): (r: Proc) {
    var p' := p.(phase := Running, timeStarted := now, sliceUsed := 0);
    if c.kind.Mlfq? then p'.(slice := LevelTicks(c, q), inQueue := 0) else p'
  }

  /** In `r` the CPU has passed from the running process of `s`, if any, to the head of queue `q`. */
  ghost predicate HandsOver(s: Sched, r: Sched, q: nat)
    requires Shape(s) && Shape(r)
  {
    && q < 5 && s.queues[q] != [] && s.current != Some(s.queues[q][0])
    && (s.current.Some? ==> Home(s, s.current.value) < 5)
    && (var n := s.queues[q][0];
        && r.current == Some(n) && r.switches == s.switches + 1
        && r.procs[n] == Started(s.config, s.procs[n], q, s.ticks)
        && r.queues == Passed(s.queues, q, s.current, if s.current.Some? then Home(s, s.current.value) else 0)
        && (s.current.Some? ==> r.procs[s.current.value] == s.procs[s.current.value].(phase := Ready))
        && forall i :: 0 <= i < MAX_PROCESSES && i != n && Some(i) != s.current ==> r.procs[i] == s.procs[i])
    && r.config == s.config && r.ticks == s.ticks && r.lastBoost == s.lastBoost && r.nextPid == s.nextPid
    && r.completed == s.completed && r.totalRuntime == s.totalRuntime
  }

  lemma TwoToFour()
    ensures TwoTo(0) == 1 && TwoTo(1) == 2 && TwoTo(2) == 4 && TwoTo(3) == 8
  {
    assert TwoTo(1) == 2 * TwoTo(0);
    assert TwoTo(2) == 2 * TwoTo(1);
    assert TwoTo(3) == 2 * TwoTo(2);
  }

  lemma LevelNumbers(c: Config, level: nat)
    requires level < 4
    ensures LevelSlice(c, level) == LevelTicks(c, level)
  {
    TwoToFour();
  }

  /** Where a process of a level is at home. */
  lemma HomeQueue(s: Sched, i: nat)
    requires Core(s, {}) && i < MAX_PROCESSES && Live(s.procs[i])
    ensures QueueOf(s.config, s.procs[i]) == Home(s, i) < 5
  {
    assert ProcOk(s, i);
  }

  lemma RunningFacts(s: Sched)
    requires Core(s, {}) && s.current.Some? && s.procs[s.current.value].phase == Running
    ensures var c := s.current.value;
            && Live(s.procs[c]) && s.procs[c].pid != 0
            && Home(s, c) < 5 && QueueOf(s.config, s.procs[c]) == Home(s, c) && (s.config.kind.Mlfq? ==> Home(s, c) < 4)
            && forall q :: 0 <= q < 5 ==> c !in s.queues[q]
  {
    var c := s.current.value;
    assert ProcOk(s, c);
    HomeQueue(s, c);
    forall q | 0 <= q < 5 ensures c !in s.queues[q] { assert QueueOk(s, q, {}); }
  }

  /** Under every policy only its own queues are used. */
  lemma UsedQueues(s: Sched)
    requires Core(s, {})
    ensures if s.config.kind.Mlfq? then s.queues[4] == [] else forall q :: 0 <= q < 4 ==> s.queues[q] == []
  {
    forall q | 0 <= q < 5 && s.queues[q] != [] ensures s.config.kind.Mlfq? <==> q < 4 {
      assert QueueOk(s, q, {});
      assert QueueOf(s.config, s.procs[s.queues[q][0]]) == q;
    }
  }

  lemma FirstServed(s: Sched, q: nat)
    requires Shape(s) && First(s, q)
    ensures Served(s) == Some(q)
  {
  }

  lemma NobodyServed(s: Sched)
    requires Core(s, {})
    ensures Served(s) == None <==> NobodyQueued(s)
    ensures Served(s).Some? ==> First(s, Served(s).value)
  {
    UsedQueues(s);
  }

  // ----- scheduler_schedule and scheduler_yield ------------------------------------

  /** A scheduling decision hands over to the head of the first nonempty queue, and does nothing when there is none. */
  lemma ScheduleLaw(s: Sched)
    requires Inv(s)
    ensures NobodyQueued(s) ==> Step(s, ESchedule) == s
    ensures forall q :: First(s, q) ==> HandsOver(s, Step(s, ESchedule), q)
  {
    NobodyServed(s);
    forall q | First(s, q) ensures HandsOver(s, Step(s, ESchedule), q) {
      FirstServed(s, q);
      DispatchHandsOver(s, q);
    }
  }

  lemma DispatchHandsOver(s: Sched, q: nat)
    requires Inv(s) && First(s, q)
    ensures HandsOver(s, Schedule(s), q)
  {
    FirstServed(s, q);
    if s.current.Some? { RunningFacts(s); }
    if q < 4 { LevelNumbers(s.config, q); }
    assert s.queues[q][0] in s.queues[q];
    assert QueueOk(s, q, {});
  }

  /** Nobody is queued at the level of the running process or before it. */
  ghost predicate Foremost(s: Sched)
    requires Shape(s) && s.current.Some?
  {
    forall q :: 0 <= q < 5 && (s.config.kind.Mlfq? ==> q <= s.procs[s.current.value].priority) ==> s.queues[q] == []
  }

  /** The running process of `s` keeps the CPU in `r`, with a fresh slice. */
  ghost predicate Renewed(s: Sched, r: Sched)
    requires Shape(s) && Shape(r) && s.current.Some?
  {
    var c := s.current.value;
    && r == s.(procs := r.procs)
    && r.procs[c] == Started(s.config, s.procs[c], s.procs[c].priority, s.procs[c].timeStarted)
    && forall i :: 0 <= i < MAX_PROCESSES && i != c ==> r.procs[i] == s.procs[i]
  }

  /** Yielding hands over to the head of the first nonempty queue up to the own level, or renews the slice. */
  lemma YieldLaw(s: Sched)
    requires Inv(s)
    ensures s.current == None ==> Step(s, EYield) == Step(s, ESchedule)
    ensures s.current.Some? && Foremost(s) ==> Renewed(s, Step(s, EYield))
    ensures forall q :: First(s, q) && s.current.Some? && !Foremost(s) ==> HandsOver(s, Step(s, EYield), q)
  {
    if s.current.Some? { YieldShape(s); }
  }

  lemma YieldShape(s: Sched)
    requires Core(s, {}) && s.current.Some? && s.procs[s.current.value].phase == Running
    ensures Foremost(s) ==> Renewed(s, Yield(s))
    ensures forall q :: First(s, q) && !Foremost(s) ==> HandsOver(s, Yield(s), q)
  {
    if Foremost(s) { YieldRenews(s); }
    forall q | First(s, q) && !Foremost(s) ensures HandsOver(s, Yield(s), q) { YieldHandsOver(s, q); }
  }

  lemma YieldRenews(s: Sched)
    requires Core(s, {}) && s.current.Some? && s.procs[s.current.value].phase == Running && Foremost(s)
    ensures Renewed(s, Yield(s))
  {
    RunningFacts(s);
    var c := s.current.value;
    var g := Home(s, c);
    var r := Release(s);
    assert r.queues[g] == [c];
    FirstServed(r, g);
    if g < 4 { LevelNumbers(s.config, g); }
    assert r.queues[g][1..] == s.queues[g];
    assert Yield(s).queues == s.queues;
  }

  lemma PassedBehind(queues: seq<seq<nat>>, q: nat, c: nat, g: nat)
    requires |queues| == 5 && q < 5 && g < 5 && queues[q] != []
    ensures var r := queues[g := queues[g] + [c]];
            r[q][0] == queues[q][0] && r[q := r[q][1..]] == Passed(queues, q, Some(c), g)
  {
    assert (queues[q] + [c])[1..] == queues[q][1..] + [c];
  }

  lemma YieldHandsOver(s: Sched, q: nat)
    requires Core(s, {}) && s.current.Some? && s.procs[s.current.value].phase == Running
    requires First(s, q) && !Foremost(s)
    ensures HandsOver(s, Yield(s), q)
  {
    hide Consistent;
    RunningFacts(s);
    UsedQueues(s);
    var c := s.current.value;
    var g := Home(s, c);
    assert q <= g;
    var r := Release(s);
    FirstServed(r, q);
    if q < 4 { LevelNumbers(s.config, q); }
    assert s.queues[q][0] in s.queues[q];
    PassedBehind(s.queues, q, c, g);
  }

  // ----- scheduler_tick ------------------------------------------------------------

  /** `s` one tick later, the tick charged to the running process `c`. */
  function Later(s: Sched, c: nat): (r: Sched)
    requires Shape(s) && c < MAX_PROCESSES
    ensures Shape(r)
  {
    var p := s.procs[c];
    s.(ticks := s.ticks + 1, procs := s.procs[c := p.(timeUsed := p.timeUsed + 1, sliceUsed := p.sliceUsed + 1)])
  }

  /** `m` with the tick also counted as time in the level of process `c`. */
  function Aged(m: Sched, c: nat): (r: Sched)
    requires Shape(m) && c < MAX_PROCESSES
    ensures Shape(r)
  {
    if m.config.kind.Mlfq? then m.(procs := m.procs[c := m.procs[c].(inQueue := m.procs[c].inQueue + 1)]) else m
  }

  /**
   * `r` is `m` after the check at the end of a tick: exactly when the last boost
   * is a boost interval old, the levels 1 to 3 go behind level 0 in this order.
   */
  ghost predicate Closes(m: Sched, r: Sched)
    requires Shape(m) && Shape(r)
  {
    var q := m.queues;
    if m.config.kind.Mlfq? && m.ticks - m.lastBoost >= m.config.boostInterval then
      && r == m.(procs := r.procs, queues := [q[0] + q[1] + q[2] + q[3], [], [], [], q[4]], lastBoost := m.ticks)
      && forall i :: 0 <= i < MAX_PROCESSES ==>
           var p := m.procs[i];
           r.procs[i] ==
           if i in q[1] || i in q[2] || i in q[3]
           then p.(priority := 0, inQueue := 0, promotions := (p.promotions + 1) % 256) else p
    else r == m
  }

  lemma SettleCloses(m: Sched)
    requires Shape(m) && m.current.Some?
    ensures Closes(Aged(m, m.current.value), Settle(m))
  {
    hide Boost, Closes;
    var a := Aged(m, m.current.value);
    if m.config.kind.Mlfq? && BoostDue(m) { BoostGathers(a); } else { NothingGathers(a); }
  }

  lemma NothingGathers(m: Sched)
    requires Shape(m) && !(m.config.kind.Mlfq? && m.ticks - m.lastBoost >= m.config.boostInterval)
    ensures Closes(m, m)
  {
  }

  lemma BoostGathers(m: Sched)
    requires Shape(m) && m.config.kind.Mlfq? && m.ticks - m.lastBoost >= m.config.boostInterval
    ensures Closes(m, Boost(m).(lastBoost := m.ticks))
  {
    var q := m.queues;
    assert q[0] + Lower(m) == q[0] + q[1] + q[2] + q[3];
  }

  /** Time passes without anybody running. */
  lemma TickIdle(s: Sched)
    requires Inv(s) && s.current == None
    ensures Step(s, ETick) == s.(ticks := s.ticks + 1)
  {
  }

  /** Before its slice is used up the running process keeps the CPU. */
  lemma TickKeeps(s: Sched, c: nat)
    requires Inv(s) && s.current == Some(c)
    requires s.config.preemption ==> s.procs[c].sliceUsed + 1 < s.procs[c].slice
    ensures var r := Step(s, ETick);
            && Closes(Aged(Later(s, c), c), r)
            && r.current == Some(c) && r.procs[c].phase == Running && r.switches == s.switches
            && r.procs[c].sliceUsed == s.procs[c].sliceUsed + 1 && r.procs[c].timeUsed == s.procs[c].timeUsed + 1
            && r.procs[c].slice == s.procs[c].slice && r.procs[c].priority == s.procs[c].priority
            && forall q :: 0 <= q < 5 ==> c !in r.queues[q]
  {
    hide Consistent;
    var m := Later(s, c);
    RunningFacts(s);
    assert Step(s, ETick) == Settle(m);
    SettleCloses(m);
    InvTick(s);
    RunningFacts(Step(s, ETick));
  }

  /** A used up slice with nobody queued at the own level or before it is renewed. */
  lemma TickAlone(s: Sched, c: nat) returns (m: Sched)
    requires Inv(s) && s.current == Some(c) && Foremost(s)
    requires s.config.preemption && s.procs[c].sliceUsed + 1 >= s.procs[c].slice
    ensures Shape(m) && Renewed(Later(s, c), m) && Closes(Aged(m, c), Step(s, ETick))
    ensures var r := Step(s, ETick);
            && r.current == Some(c) && r.procs[c].phase == Running && r.switches == s.switches
            && r.procs[c].sliceUsed == 0 && r.procs[c].timeUsed == s.procs[c].timeUsed + 1
  {
    hide Consistent, Schedule, Release;
    RunningFacts(s);
    assert Later(s, c) == Charge(s);
    CoreCharge(s);
    RunningFacts(s);
    m := Yield(Charge(s));
    YieldShape(Later(s, c));
    SettleCloses(m);
  }

  /** A used up slice with somebody queued at the own level or before it goes to the head of the first such queue. */
  lemma TickPreempts(s: Sched, c: nat, q: nat) returns (m: Sched)
    requires Inv(s) && s.current == Some(c) && First(s, q) && !Foremost(s)
    requires s.config.preemption && s.procs[c].sliceUsed + 1 >= s.procs[c].slice
    ensures Shape(m) && HandsOver(Later(s, c), m, q) && Closes(Aged(m, s.queues[q][0]), Step(s, ETick))
    ensures var r, n := Step(s, ETick), s.queues[q][0];
            && n != c && r.current == Some(n) && r.procs[n].phase == Running && r.switches == s.switches + 1
            && r.procs[n].sliceUsed == 0 && r.procs[n].timeStarted == s.ticks + 1
            && r.procs[c].phase == Ready && r.procs[c].timeUsed == s.procs[c].timeUsed + 1
  {
    hide Consistent, Schedule, Release;
    RunningFacts(s);
    assert Later(s, c) == Charge(s);
    CoreCharge(s);
    m := Yield(Charge(s));
    YieldShape(Later(s, c));
    assert HandsOver(Later(s, c), m, q);
    SettleCloses(m);
  }

  // ----- scheduler_create_process and scheduler_terminate_process --------------------

  predicate Unused(p: Proc) {
    p.pid == 0 || p.phase == Terminated
  }

  /** A new process takes the first unused slot, the next PID and the last place of its queue. */
  lemma CreateLaw(s: Sched, priority: nat, i: nat)
    requires Inv(s) && priority < 4 && i < MAX_PROCESSES
    requires Unused(s.procs[i]) && forall j :: 0 <= j < i ==> !Unused(s.procs[j])
    ensures var p := s.procs[i].(
                       pid := s.nextPid, phase := Ready, priority := priority, timeCreated := s.ticks,
                       timeStarted := 0, timeUsed := 0, slice := 10 * (4 - priority), sliceUsed := 0);
            var g := if s.config.kind.Mlfq? then priority else 4;
            Step(s, ECreate(priority)) ==
            s.(procs := s.procs[i := p], queues := s.queues[g := s.queues[g] + [i]], nextPid := s.nextPid + 1)
  {
    assert FirstFree(s.procs, 0) == Some(i);
  }

  lemma CreateFull(s: Sched, priority: nat)
    requires Inv(s) && priority < 4 && forall i :: 0 <= i < MAX_PROCESSES ==> !Unused(s.procs[i])
    ensures Step(s, ECreate(priority)) == s
  {
    assert FirstFree(s.procs, 0) == None;
  }

  /** `e` is `s` after slot `i` has ended: out of its queue and off the CPU, its time recorded. */
  ghost predicate Ended(s: Sched, i: nat, e: Sched)
    requires Shape(s) && Shape(e) && i < MAX_PROCESSES
  {
    && e == s.(procs := s.procs[i := s.procs[i].(phase := Terminated)], queues := e.queues,
               current := if s.current == Some(i) then None else s.current,
               completed := s.completed + 1, totalRuntime := s.totalRuntime + s.procs[i].timeUsed)
    && forall q :: 0 <= q < 5 ==>
         if i in s.queues[q]
         then exists k :: 0 <= k < |s.queues[q]| && s.queues[q][k] == i &&
                          e.queues[q] == s.queues[q][..k] + s.queues[q][k + 1..]
         else e.queues[q] == s.queues[q]
  }

  predicate Named(p: Proc, pid: nat) {
    p.pid == pid && p.phase != Terminated
  }

  lemma TerminateActs(s: Sched, pid: nat, i: nat)
    requires Inv(s) && i < MAX_PROCESSES
    requires Named(s.procs[i], pid) && forall j :: 0 <= j < i ==> !Named(s.procs[j], pid)
    ensures Terminate(s, pid) == if s.current == Some(i) then Schedule(Retire(s, i).(current := None)) else Retire(s, i)
  {
    assert FirstMatch(s.procs, pid, 0) == Some(i);
    VictimRuns(s, pid, i);
  }

  /** The first slot with the PID ends; when it was running the CPU goes to the head of the first nonempty queue. */
  lemma TerminateLaw(s: Sched, pid: nat, i: nat) returns (e: Sched)
    requires Inv(s) && i < MAX_PROCESSES
    requires Named(s.procs[i], pid) && forall j :: 0 <= j < i ==> !Named(s.procs[j], pid)
    ensures Inv(e) && Ended(s, i, e)
    ensures s.current != Some(i) || NobodyQueued(e) ==> Step(s, ETerminate(pid)) == e
    ensures forall q :: s.current == Some(i) && First(e, q) ==> HandsOver(e, Step(s, ETerminate(pid)), q)
  {
    hide Consistent;
    e := Retire(s, i).(current := if s.current == Some(i) then None else s.current);
    TerminateActs(s, pid, i);
    CoreRetire(s, i);
    EndedQueues(s, i);
    if s.current.Some? { RunningFacts(s); }
    if s.current == Some(i) { ScheduleLaw(e); }
  }

  /** Live processes have distinct PIDs. */
  lemma VictimRuns(s: Sched, pid: nat, i: nat)
    requires Inv(s) && i < MAX_PROCESSES && Named(s.procs[i], pid)
    ensures s.current.Some? ==> (s.procs[s.current.value].pid == pid <==> s.current == Some(i))
    ensures s.current.Some? ==> Retire(s, i).procs[s.current.value].pid == s.procs[s.current.value].pid
  {
    if s.current.Some? { assert ProcOk(s, s.current.value); }
  }

  lemma EndedQueues(s: Sched, i: nat)
    requires Inv(s) && i < MAX_PROCESSES
    ensures forall q :: 0 <= q < 5 ==>
              if i in s.queues[q]
              then exists k :: 0 <= k < |s.queues[q]| && s.queues[q][k] == i &&
                               Retire(s, i).queues[q] == s.queues[q][..k] + s.queues[q][k + 1..]
              else Retire(s, i).queues[q] == s.queues[q]
  {
    forall q | 0 <= q < 5
      ensures if i in s.queues[q]
              then exists k :: 0 <= k < |s.queues[q]| && s.queues[q][k] == i &&
                               Retire(s, i).queues[q] == s.queues[q][..k] + s.queues[q][k + 1..]
              else Retire(s, i).queues[q] == s.queues[q]
    {
      assert QueueOk(s, q, {});
      if i in s.queues[q] {
        var k :| 0 <= k < |s.queues[q]| && s.queues[q][k] == i;
        WithoutAt(s.queues[q], k);
      } else {
        WithoutAbsent(s.queues[q], i);
      }
    }
  }

  lemma TerminateNobody(s: Sched, pid: nat)
    requires Inv(s) && forall i :: 0 <= i < MAX_PROCESSES ==> !Named(s.procs[i], pid)
    ensures Step(s, ETerminate(pid)) == s
  {
    assert FirstMatch(s.procs, pid, 0) == None;
  }

  // ----- runs: how long a process holds the CPU ------------------------------------------

  /** The process with this PID neither yields nor is rescheduled nor ended. */
  predicate Undisturbed(es: seq<Event>, pid: nat) {
    forall i :: 0 <= i < |es| ==> !es[i].EYield? && !es[i].ESchedule? && es[i] != ETerminate(pid)
  }

  /** Process `c` still runs in `r`, with `n` more ticks used, and nobody was switched to. */
  ghost predicate Holds(s: Sched, r: Sched, c: nat, n: nat)
    requires Shape(s) && Shape(r) && c < MAX_PROCESSES
  {
    && r.current == Some(c) && r.switches == s.switches && r.procs[c].phase == Running
    && r.procs[c].sliceUsed == s.procs[c].sliceUsed + n && r.procs[c].timeUsed == s.procs[c].timeUsed + n
    && r.procs[c].slice == s.procs[c].slice && r.procs[c].priority == s.procs[c].priority
    && r.procs[c].pid == s.procs[c].pid
  }

  lemma StepHolds(s: Sched, e: Event, c: nat)
    requires Inv(s) && s.current == Some(c) && Legal(e)
    requires !e.EYield? && !e.ESchedule? && e != ETerminate(s.procs[c].pid)
    requires e.ETick? && s.config.preemption ==> s.procs[c].sliceUsed + 1 < s.procs[c].slice
    ensures Holds(s, Step(s, e), c, if e.ETick? then 1 else 0)
  {
    hide Consistent;
    RunningFacts(s);
    match e
    case ETick => TickKeeps(s, c);
    case ECreate(p) =>
      if FirstFree(s.procs, 0).Some? { CreateLaw(s, p, FirstFree(s.procs, 0).value); }
    case ETerminate(pid) =>
      if FirstMatch(s.procs, pid, 0).Some? { var e := TerminateLaw(s, pid, FirstMatch(s.procs, pid, 0).value); }
  }

  /** Below its slice, or without preemption for any time, a process holds the CPU whatever arrives or ends. */
  lemma {:induction false} HoldsCpu(s: Sched, es: seq<Event>, c: nat)
    requires Inv(s) && s.current == Some(c) && AllLegal(es) && Undisturbed(es, s.procs[c].pid)
    requires s.config.preemption && Ticks(es) > 0 ==> s.procs[c].sliceUsed + Ticks(es) < s.procs[c].slice
    ensures Inv(Run(s, es)) && Holds(s, Run(s, es), c, Ticks(es))
    decreases es
  {
    hide Consistent;
    if es != [] {
      StepHolds(s, es[0], c);
      InvStep(s, es[0]);
      HoldsCpu(Step(s, es[0]), es[1..], c);
    }
  }

  /**
   * With preemption the CPU is lost exactly at the tick that uses up the slice
   * (a slice of 0 lasts one tick), and then exactly when somebody is queued at
   * the level of the process or before it.
   */
  lemma SliceIsExact(s: Sched, es: seq<Event>, c: nat)
    requires Inv(s) && s.current == Some(c) && AllLegal(es) && Undisturbed(es, s.procs[c].pid)
    requires s.config.preemption
    requires var p := s.procs[c]; Ticks(es) + 1 == if p.slice <= p.sliceUsed then 1 else p.slice - p.sliceUsed
    ensures Holds(s, Run(s, es), c, Ticks(es))
    ensures var m, r := Run(s, es), Step(Run(s, es), ETick);
            && r.current.Some?
            && (r.current == Some(c) <==> Foremost(m))
            && r.switches == s.switches + (if Foremost(m) then 0 else 1)
            && r.procs[r.current.value].sliceUsed == 0
            && forall q: nat :: First(m, q) && !Foremost(m) ==> r.current == Some(m.queues[q][0])
  {
    hide Consistent;
    HoldsCpu(s, es, c);
    var m := Run(s, es);
    if Foremost(m) {
      var y := TickAlone(m, c);
    } else {
      NobodyServed(m);
      var y := TickPreempts(m, c, Served(m).value);
      forall q | First(m, q) ensures q == Served(m).value { FirstServed(m, q); }
    }
  }

  // ----- runs: the slices are these numbers ------------------------------------------------

  /** Slices are 10 ticks for each priority above 4, and 10, 20, 40, 80 for the running process of an MLFQ level. */
  ghost predicate Sliced(s: Sched)
    requires Shape(s)
  {
    && (!s.config.kind.Mlfq? ==>
          forall i :: 0 <= i < MAX_PROCESSES && s.procs[i].pid != 0 && s.procs[i].phase != Terminated ==>
            s.procs[i].slice == 10 * (4 - s.procs[i].priority))
    && (s.config.kind.Mlfq? && s.current.Some? ==>
          s.procs[s.current.value].slice == LevelTicks(s.config, s.procs[s.current.value].priority))
  }

  lemma HandsOverSliced(s: Sched, r: Sched, q: nat)
    requires Core(s, {}) && Sliced(s) && First(s, q) && Shape(r) && HandsOver(s, r, q)
    requires s.current.Some? ==> s.procs[s.current.value].phase == Running
    ensures Sliced(r)
  {
    hide Consistent;
    Queuing(s, q);
    if s.current.Some? { RunningFacts(s); }
  }

  lemma Queuing(s: Sched, q: nat)
    requires Core(s, {}) && q < 5 && s.queues[q] != []
    ensures var p := s.procs[s.queues[q][0]];
            && p.pid != 0 && p.phase == Ready && p.priority < 4
            && (s.config.kind.Mlfq? ==> p.priority == q)
  {
    assert QueueOk(s, q, {}) && ProcOk(s, s.queues[q][0]);
  }

  lemma ScheduleSliced(s: Sched)
    requires Inv(s) && Sliced(s)
    ensures Sliced(Schedule(s))
  {
    ScheduleLaw(s);
    NobodyServed(s);
    if Served(s).Some? { HandsOverSliced(s, Schedule(s), Served(s).value); }
  }

  lemma YieldSliced(s: Sched)
    requires Core(s, {}) && Sliced(s) && s.current.Some? && s.procs[s.current.value].phase == Running
    ensures Sliced(Yield(s))
  {
    hide Consistent;
    YieldShape(s);
    if !Foremost(s) {
      NobodyServed(s);
      HandsOverSliced(s, Yield(s), Served(s).value);
    }
  }

  lemma TickSliced(s: Sched)
    requires Inv(s) && Sliced(s)
    ensures Sliced(Tick(s))
  {
    hide Consistent;
    if s.current.Some? {
      CoreCharge(s);
      InvPreempt(Charge(s));
      if Expired(Charge(s)) { YieldSliced(Charge(s)); }
      var m := Preempt(Charge(s));
      SettleCloses(m);
      RunningFacts(m);
    }
  }

  lemma CreateSliced(s: Sched, priority: nat)
    requires Inv(s) && Sliced(s) && priority < 4
    ensures Sliced(Create(s, priority))
  {
    hide Consistent;
    if s.current.Some? { RunningFacts(s); }
    if FirstFree(s.procs, 0).Some? { CreateLaw(s, priority, FirstFree(s.procs, 0).value); }
  }

  lemma EndedSliced(s: Sched, i: nat, e: Sched)
    requires Shape(s) && Shape(e) && i < MAX_PROCESSES && Sliced(s) && Ended(s, i, e)
    ensures Sliced(e) && (s.current == Some(i) ==> e.current == None)
  {
  }

  lemma TerminateSliced(s: Sched, pid: nat)
    requires Inv(s) && Sliced(s)
    ensures Sliced(Step(s, ETerminate(pid)))
  {
    hide Consistent, Sliced, Ended, HandsOver, Schedule;
    if FirstMatch(s.procs, pid, 0).Some? {
      var i := FirstMatch(s.procs, pid, 0).value;
      var e := TerminateLaw(s, pid, i);
      EndedSliced(s, i, e);
      if s.current == Some(i) {
        NobodyServed(e);
        if Served(e).Some? { HandsOverSliced(e, Step(s, ETerminate(pid)), Served(e).value); }
      }
    }
  }

  lemma StepSliced(s: Sched, e: Event)
    requires Inv(s) && Sliced(s) && Legal(e)
    ensures Sliced(Step(s, e))
  {
    hide Consistent;
    match e
    case ECreate(p) => CreateSliced(s, p);
    case ETick => TickSliced(s);
    case EYield => if s.current.Some? { YieldSliced(s); } else { ScheduleSliced(s); }
    case ESchedule => ScheduleSliced(s);
    case ETerminate(pid) => TerminateSliced(s, pid);
  }

  lemma {:induction false} RunSliced(s: Sched, es: seq<Event>)
    requires Inv(s) && Sliced(s) && AllLegal(es)
    ensures Sliced(Run(s, es))
    decreases es
  {
    if es != [] {
      InvStep(s, es[0]);
      StepSliced(s, es[0]);
      RunSliced(Step(s, es[0]), es[1..]);
    }
  }

  /** In every reachable state the slices are these numbers. */
  lemma SliceNumbers(c: Config, es: seq<Event>)
    requires AllLegal(es)
    ensures Sliced(Run(Init(c), es))
  {
    InvInit(c);
    RunSliced(Init(c), es);
  }

  /** The length of a slice in ticks: that of the level, or 10 for each priority above 4, and one tick at least. */
  function SliceTicks(c: Config, p: Proc): (n: int) {
    var ticks := if c.kind.Mlfq? then LevelTicks(c, p.priority) else 10 * (4 - p.priority);
    if ticks < 1 then 1 else ticks
  }

  /**
   * In every reachable state, a process that was just dispatched and is left
   * undisturbed holds the CPU for exactly so many ticks, whatever arrives or
   * ends meanwhile, if somebody is queued for its place then.
   */
  lemma FreshSlice(config: Config, before: seq<Event>, es: seq<Event>, c: nat)
    requires AllLegal(before) && AllLegal(es) && config.preemption
    requires var s := Run(Init(config), before);
             && s.current == Some(c) && s.procs[c].sliceUsed == 0 && Undisturbed(es, s.procs[c].pid)
             && Ticks(es) < SliceTicks(config, s.procs[c])
    ensures var s := Run(Init(config), before);
            var m, r := Run(s, es), Step(Run(s, es), ETick);
            && Holds(s, m, c, Ticks(es))
            && (Ticks(es) + 1 < SliceTicks(config, s.procs[c]) ==> Holds(s, r, c, Ticks(es) + 1))
            && (Ticks(es) + 1 == SliceTicks(config, s.procs[c]) ==> (r.current == Some(c) <==> Foremost(m)))
  {
    hide Consistent;
    InvInit(config);
    InvRun(Init(config), before);
    SliceNumbers(config, before);
    var s := Run(Init(config), before);
    RunningFacts(s);
    HoldsCpu(s, es, c);
    if Ticks(es) + 1 == SliceTicks(config, s.procs[c]) {
      SliceIsExact(s, es, c);
    } else {
      StepHolds(Run(s, es), ETick, c);
    }
  }

  // ----- runs: no boost before its time -------------------------------------------------------

  /** No process was promoted from `s` to `r`: all levels are as they were, except in slots given to new processes. */
  ghost predicate NoneBoosted(s: Sched, r: Sched)
    requires Shape(s) && Shape(r)
  {
    && r.lastBoost == s.lastBoost && s.nextPid <= r.nextPid
    && forall i :: 0 <= i < MAX_PROCESSES ==>
         && r.procs[i].promotions == s.procs[i].promotions
         && ((r.procs[i].pid == s.procs[i].pid && r.procs[i].priority == s.procs[i].priority) ||
             r.procs[i].pid >= s.nextPid)
  }

  lemma ScheduleBoosts(s: Sched)
    requires Shape(s)
    ensures NoneBoosted(s, Schedule(s))
  {
  }

  lemma YieldBoosts(s: Sched)
    requires Shape(s)
    ensures NoneBoosted(s, Yield(s))
  {
    hide Schedule;
    ScheduleBoosts(Release(s));
  }

  lemma TickBoosts(s: Sched)
    requires Shape(s) && (s.config.kind.Mlfq? ==> s.ticks + 1 - s.lastBoost < s.config.boostInterval)
    ensures NoneBoosted(s, Tick(s))
  {
    hide Yield;
    if s.current.Some? { YieldBoosts(Charge(s)); }
  }

  lemma TerminateBoosts(s: Sched, pid: nat)
    requires Shape(s)
    ensures NoneBoosted(s, Terminate(s, pid))
  {
    hide Schedule;
    if FirstMatch(s.procs, pid, 0).Some? {
      ScheduleBoosts(Retire(s, FirstMatch(s.procs, pid, 0).value).(current := None));
    }
  }

  lemma StepBoosts(s: Sched, e: Event)
    requires Inv(s) && Legal(e)
    requires e.ETick? && s.config.kind.Mlfq? ==> s.ticks + 1 - s.lastBoost < s.config.boostInterval
    ensures NoneBoosted(s, Step(s, e))
  {
    hide Consistent;
    match e
    case ECreate(p) => hide Schedule, Settle, Preempt;
    case ETick => TickBoosts(s);
    case EYield => YieldBoosts(s);
    case ESchedule => ScheduleBoosts(s);
    case ETerminate(pid) => TerminateBoosts(s, pid);
  }

  /** Until a boost interval has passed since the last boost, no run promotes anybody. */
  lemma {:induction false} NoEarlyBoost(s: Sched, es: seq<Event>)
    requires Inv(s) && AllLegal(es)
    requires s.config.kind.Mlfq? ==> s.ticks + Ticks(es) - s.lastBoost < s.config.boostInterval
    ensures NoneBoosted(s, Run(s, es))
    decreases es
  {
    hide Consistent;
    if es != [] {
      StepBoosts(s, es[0]);
      InvStep(s, es[0]);
      NoEarlyBoost(Step(s, es[0]), es[1..]);
    }
  }
}
