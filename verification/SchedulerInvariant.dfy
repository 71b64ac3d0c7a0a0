/**
 * What every run of the scheduler keeps: the partition of the live processes
 * into the running one and the queues, distinct PIDs, and sane time counters.
 */
module SchedulerInvariant {
  import opened Common
  import opened Scheduling

  predicate Live(p: Proc) {
    p.pid != 0 && p.phase != Terminated
  }

  ghost predicate ProcOk(s: Sched, i: nat)
    requires Shape(s) && i < MAX_PROCESSES
  {
    var p := s.procs[i];
    && p.pid < s.nextPid
    && (p.pid == 0 ==> p.timeUsed == 0 && (p.phase == New || p.phase == Terminated))
    && (p.pid != 0 ==> p.phase == Ready || p.phase == Running || p.phase == Terminated)
    && (Live(p) ==>
          && p.priority < MAX_PRIORITY_LEVELS
          && p.timeCreated + p.timeUsed <= s.ticks
          && (!s.config.kind.Mlfq? ==> p.slice <= 40))
  }

  ghost predicate Queued(s: Sched, i: nat)
    requires Shape(s) && i < MAX_PROCESSES
  {
    i in s.queues[QueueOf(s.config, s.procs[i])]
  }

  /** Queue `q` holds distinct ready processes of its own level, none of them in flight. */
  ghost predicate QueueOk(s: Sched, q: nat, flying: set<nat>)
    requires Shape(s) && q < QUEUES
  {
    && Distinct(s.queues[q])
    && forall k :: 0 <= k < |s.queues[q]| ==>
         var x := s.queues[q][k];
         QueueOf(s.config, s.procs[x]) == q && s.procs[x].phase == Ready && s.procs[x].pid != 0 && x !in flying
  }

  ghost predicate Consistent(s: Sched, flying: set<nat>)
    requires Shape(s)
  {
    && 1 <= s.nextPid
    && s.lastBoost <= s.ticks
    && (forall i :: 0 <= i < MAX_PROCESSES ==> ProcOk(s, i))
    && (forall i, j :: 0 <= i < j < MAX_PROCESSES && s.procs[i].pid != 0 ==> s.procs[i].pid != s.procs[j].pid)
    && (forall q :: 0 <= q < QUEUES ==> QueueOk(s, q, flying))
    && (forall i :: 0 <= i < MAX_PROCESSES && s.procs[i].phase == Ready && i !in flying ==> Queued(s, i))
    && (forall i :: 0 <= i < MAX_PROCESSES && s.procs[i].phase == Running ==> s.current == Some(i))
    && (forall x :: x in flying ==> x < MAX_PROCESSES && s.procs[x].phase == Ready && s.procs[x].pid != 0)
  }

  /** The invariant in the middle of an operation: the processes `flying` are ready but in no queue. */
  ghost predicate Core(s: Sched, flying: set<nat>) {
    Shape(s) && Consistent(s, flying)
  }

  function MaxSlice(c: Config): (r: nat) {
    if c.kind.Mlfq? then 80 else 40
  }

  /** Ticks the running process still has; a slice of 0 also lasts one tick. */
  function Remaining(p: Proc): (r: int) {
    if p.slice - p.sliceUsed >= 1 then p.slice - p.sliceUsed else 1
  }

  ghost predicate RunningOk(s: Sched)
    requires Shape(s)
  {
    s.current.Some? ==>
      var p := s.procs[s.current.value];
      && p.phase == Running
      && p.slice <= MaxSlice(s.config)
      && (s.config.preemption && p.slice >= 1 ==> p.sliceUsed < p.slice)
  }

  ghost predicate Inv(s: Sched) {
    Core(s, {}) && RunningOk(s)
  }

  // ----- the building blocks keep Core -----------------------------------------

  lemma CoreEnqueue(s: Sched, i: nat, flying: set<nat>)
    requires Core(s, flying) && i in flying
    ensures Core(Enqueue(s, i), flying - {i})
  {
    var r := Enqueue(s, i);
    var q := QueueOf(s.config, s.procs[i]);
    forall k | 0 <= k < QUEUES ensures QueueOk(r, k, flying - {i}) {
      assert QueueOk(s, k, flying);
    }
    forall k | 0 <= k < MAX_PROCESSES ensures ProcOk(r, k) {
      assert ProcOk(s, k);
    }
    forall k | 0 <= k < MAX_PROCESSES && r.procs[k].phase == Ready && k !in flying - {i} ensures Queued(r, k) {
      if k == i { assert r.queues[q][|s.queues[q]|] == i; } else { assert Queued(s, k); }
    }
  }

  lemma TakeFacts(s: Sched, q: nat)
    requires Shape(s) && q < QUEUES && s.queues[q] != []
    ensures var n, r := s.queues[q][0], Take(s, q);
            && r.queues == s.queues[q := s.queues[q][1..]] && r.current == s.current
            && (forall i :: 0 <= i < MAX_PROCESSES && i != n ==> r.procs[i] == s.procs[i])
            && r.procs[n].pid == s.procs[n].pid && r.procs[n].phase == s.procs[n].phase
            && r.procs[n].priority == s.procs[n].priority
            && r.procs[n].timeCreated == s.procs[n].timeCreated && r.procs[n].timeUsed == s.procs[n].timeUsed
            && (q == READY ==> r.procs[n].slice == s.procs[n].slice)
  {
  }

  lemma TakeQueueOk(s: Sched, q: nat, flying: set<nat>, k: nat)
    requires Shape(s) && q < QUEUES && s.queues[q] != [] && k < QUEUES
    requires QueueOk(s, k, flying) && QueueOk(s, q, flying)
    ensures QueueOk(Take(s, q), k, flying + {s.queues[q][0]})
  {
    hide Take;
    TakeFacts(s, q);
    var n, xs := s.queues[q][0], s.queues[k];
    var ys := Take(s, q).queues[k];
    assert ys == if k == q then xs[1..] else xs;
    forall i | 0 <= i < |ys| ensures ys[i] != n && ys[i] == xs[if k == q then i + 1 else i] {
      assert QueueOf(s.config, s.procs[xs[if k == q then i + 1 else i]]) == k;
    }
  }

  lemma CoreTake(s: Sched, q: nat, flying: set<nat>)
    requires Core(s, flying) && q < QUEUES && s.queues[q] != []
    ensures Core(Take(s, q), flying + {s.queues[q][0]})
    ensures s.queues[q][0] !in flying
    ensures Take(s, q).current == s.current
  {
    hide Take, QueueOk;
    var n := s.queues[q][0];
    var r := Take(s, q);
    TakeFacts(s, q);
    HeadReady(s, q, flying);
    forall k | 0 <= k < QUEUES ensures QueueOk(r, k, flying + {n}) {
      TakeQueueOk(s, q, flying, k);
    }
    forall k | 0 <= k < MAX_PROCESSES ensures ProcOk(r, k) {
      assert ProcOk(s, k);
    }
    forall k | 0 <= k < MAX_PROCESSES && r.procs[k].phase == Ready && k !in flying + {n} ensures Queued(r, k) {
      assert Queued(s, k);
      assert k in s.queues[q] ==> k in s.queues[q][1..];
    }
  }

  lemma HeadReady(s: Sched, q: nat, flying: set<nat>)
    requires Shape(s) && q < QUEUES && s.queues[q] != [] && QueueOk(s, q, flying)
    ensures var n := s.queues[q][0];
            && n < MAX_PROCESSES && QueueOf(s.config, s.procs[n]) == q
            && s.procs[n].phase == Ready && s.procs[n].pid != 0 && n !in flying
  {
  }

  /** The running process becomes ready and leaves the CPU side of the partition. */
  lemma CoreFloat(s: Sched, flying: set<nat>)
    requires Core(s, flying) && s.current.Some? && s.procs[s.current.value].phase == Running
    ensures Core(SetProc(s, s.current.value, s.procs[s.current.value].(phase := Ready)), flying + {s.current.value})
  {
    var c := s.current.value;
    var r := SetProc(s, c, s.procs[c].(phase := Ready));
    assert ProcOk(s, c);
    forall k | 0 <= k < QUEUES ensures QueueOk(r, k, flying + {c}) {
      assert QueueOk(s, k, flying);
    }
    forall k | 0 <= k < MAX_PROCESSES ensures ProcOk(r, k) {
      assert ProcOk(s, k);
    }
    forall k | 0 <= k < MAX_PROCESSES && r.procs[k].phase == Ready && k !in flying + {c} ensures Queued(r, k) {
      assert Queued(s, k);
    }
  }

  /** A ready process in flight starts running. */
  lemma CoreRun(s: Sched, n: nat, started: nat, flying: set<nat>)
    requires Core(s, flying) && n in flying
    requires forall i :: 0 <= i < MAX_PROCESSES ==> s.procs[i].phase != Running
    ensures var p := s.procs[n].(phase := Running, timeStarted := started, sliceUsed := 0);
            Core(SetProc(s, n, p).(current := Some(n)), flying - {n})
  {
    var r := SetProc(s, n, s.procs[n].(phase := Running, timeStarted := started, sliceUsed := 0)).(current := Some(n));
    forall k | 0 <= k < QUEUES ensures QueueOk(r, k, flying - {n}) {
      assert QueueOk(s, k, flying);
    }
    forall k | 0 <= k < MAX_PROCESSES ensures ProcOk(r, k) {
      assert ProcOk(s, k);
    }
    forall k | 0 <= k < MAX_PROCESSES && r.procs[k].phase == Ready && k !in flying - {n} ensures Queued(r, k) {
      assert Queued(s, k);
    }
  }

  /** Counters play no part in Core. */
  lemma CoreCounters(s: Sched, flying: set<nat>, switches: nat, completed: nat, total: nat)
    requires Core(s, flying)
    ensures Core(s.(switches := switches, completed := completed, totalRuntime := total), flying)
  {
    var r := s.(switches := switches, completed := completed, totalRuntime := total);
    forall k | 0 <= k < QUEUES ensures QueueOk(r, k, flying) {
      assert QueueOk(s, k, flying);
    }
    forall k | 0 <= k < MAX_PROCESSES ensures ProcOk(r, k) {
      assert ProcOk(s, k);
    }
    forall k | 0 <= k < MAX_PROCESSES && r.procs[k].phase == Ready && k !in flying ensures Queued(r, k) {
      assert Queued(s, k);
    }
  }

  // ----- the operations keep Inv -----------------------------------------------

  /** After putting the running process back nobody runs. */
  lemma CorePutBack(s: Sched, flying: set<nat>)
    requires Core(s, flying)
    ensures Core(PutBack(s), flying)
    ensures forall i :: 0 <= i < MAX_PROCESSES ==> PutBack(s).procs[i].phase != Running
    ensures forall i :: i in flying ==> PutBack(s).procs[i] == s.procs[i]
  {
    if s.current.Some? && s.procs[s.current.value].phase == Running {
      var c := s.current.value;
      CoreFloat(s, flying);
      CoreEnqueue(SetProc(s, c, s.procs[c].(phase := Ready)), c, flying + {c});
      assert flying + {c} - {c} == flying;
    }
  }

  lemma InvSwitch(s: Sched, n: nat)
    requires Core(s, {n}) && s.procs[n].slice <= MaxSlice(s.config)
    requires forall i :: 0 <= i < MAX_PROCESSES ==> s.procs[i].phase != Running
    ensures Inv(Switch(s, n))
  {
    CoreRun(s, n, s.ticks, {n});
    assert {n} - {n} == {};
    var r := SetProc(s, n, s.procs[n].(phase := Running, timeStarted := s.ticks, sliceUsed := 0)).(current := Some(n));
    CoreCounters(r, {}, s.switches + 1, r.completed, r.totalRuntime);
  }

  lemma InvResume(s: Sched, n: nat)
    requires Core(s, {n}) && s.current == Some(n) && s.procs[n].slice <= MaxSlice(s.config)
    ensures Inv(Resume(s, n))
  {
    CoreRun(s, n, s.procs[n].timeStarted, {n});
    assert {n} - {n} == {};
    var p := s.procs[n].(phase := Running, timeStarted := s.procs[n].timeStarted, sliceUsed := 0);
    assert Resume(s, n) == SetProc(s, n, p).(current := Some(n));
  }

  /** The process taken from a queue is in flight with an admissible slice. */
  lemma TakeSlice(s: Sched, q: nat)
    requires Core(s, {}) && q < QUEUES && s.queues[q] != []
    ensures Core(Take(s, q), {s.queues[q][0]})
    ensures Take(s, q).procs[s.queues[q][0]].slice <= MaxSlice(s.config)
  {
    CoreTake(s, q, {});
    var n := s.queues[q][0];
    assert {} + {n} == {n};
    assert QueueOk(s, q, {}) && ProcOk(s, n);
  }

  lemma InvSchedule(s: Sched)
    requires Core(s, {})
    requires Served(s).None? ==> RunningOk(s)
    ensures Inv(Schedule(s))
  {
    hide Consistent;
    if Served(s).Some? {
      var q := Served(s).value;
      var n := s.queues[q][0];
      TakeSlice(s, q);
      var s1 := Take(s, q);
      if s.current == Some(n) {
        InvResume(s1, n);
      } else {
        CorePutBack(s1, {n});
        InvSwitch(PutBack(s1), n);
      }
    }
  }

  lemma CoreRelease(s: Sched)
    requires Core(s, {}) && (s.current.Some? ==> s.procs[s.current.value].phase == Running)
    ensures Core(Release(s), {})
    ensures s.current.Some? ==> Release(s).procs[s.current.value].phase == Ready && Served(Release(s)).Some?
  {
    if s.current.Some? {
      var c := s.current.value;
      CoreFloat(s, {});
      var s1 := SetProc(s, c, s.procs[c].(phase := Ready));
      assert {} + {c} == {c} && {c} - {c} == {};
      CoreEnqueue(s1, c, {c});
      assert ProcOk(s, c);
    }
  }

  lemma InvYield(s: Sched)
    requires Core(s, {}) && (s.current.Some? ==> s.procs[s.current.value].phase == Running)
    ensures Inv(Yield(s))
    ensures s.current.Some? ==> Yield(s).current.Some?
  {
    CoreRelease(s);
    InvSchedule(Release(s));
  }

  lemma CoreCharge(s: Sched)
    requires Inv(s)
    ensures Core(Charge(s), {})
    ensures s.current.Some? ==> Charge(s).procs[s.current.value].phase == Running
    ensures !Expired(Charge(s)) ==> RunningOk(Charge(s))
  {
    var r := Charge(s);
    forall k | 0 <= k < QUEUES ensures QueueOk(r, k, {}) {
      assert QueueOk(s, k, {});
    }
    forall k | 0 <= k < MAX_PROCESSES ensures ProcOk(r, k) {
      assert ProcOk(s, k);
    }
    forall k | 0 <= k < MAX_PROCESSES && r.procs[k].phase == Ready ensures Queued(r, k) {
      assert Queued(s, k);
    }
  }

  lemma InvAge(s: Sched)
    requires Inv(s)
    ensures Inv(Age(s))
  {
    var r := Age(s);
    forall k | 0 <= k < QUEUES ensures QueueOk(r, k, {}) {
      assert QueueOk(s, k, {});
    }
    forall k | 0 <= k < MAX_PROCESSES ensures ProcOk(r, k) {
      assert ProcOk(s, k);
    }
    forall k | 0 <= k < MAX_PROCESSES && r.procs[k].phase == Ready ensures Queued(r, k) {
      assert Queued(s, k);
    }
  }

  /** Under MLFQ the levels share no process. */
  lemma LevelsDisjoint(s: Sched)
    requires Core(s, {}) && s.config.kind.Mlfq?
    ensures Distinct(s.queues[0] + Lower(s))
    ensures forall k :: 0 <= k < |Lower(s)| ==>
              var x := Lower(s)[k]; x < MAX_PROCESSES && s.procs[x].phase == Ready && s.procs[x].pid != 0
    ensures forall x :: x in s.queues[0] ==> x !in Lower(s)
  {
    assert QueueOk(s, 0, {}) && QueueOk(s, 1, {}) && QueueOk(s, 2, {}) && QueueOk(s, 3, {});
    assert forall x :: x in s.queues[1] ==> QueueOf(s.config, s.procs[x]) == 1;
    assert forall x :: x in s.queues[2] ==> QueueOf(s.config, s.procs[x]) == 2;
    assert forall x :: x in s.queues[3] ==> QueueOf(s.config, s.procs[x]) == 3;
  }

  lemma InvBoost(s: Sched)
    requires Inv(s) && s.config.kind.Mlfq?
    ensures Inv(Boost(s).(lastBoost := s.ticks))
  {
    var r := Boost(s).(lastBoost := s.ticks);
    LevelsDisjoint(s);
    var low := Lower(s);
    forall k | 0 <= k < QUEUES ensures QueueOk(r, k, {}) {
      assert QueueOk(s, k, {});
    }
    forall k | 0 <= k < MAX_PROCESSES ensures ProcOk(r, k) {
      assert ProcOk(s, k);
    }
    forall k | 0 <= k < MAX_PROCESSES && r.procs[k].phase == Ready ensures Queued(r, k) {
      assert Queued(s, k) && ProcOk(s, k);
    }
    if s.current.Some? {
      assert s.current.value !in low;
    }
  }

  lemma InvPreempt(s: Sched)
    requires Core(s, {}) && (s.current.Some? ==> s.procs[s.current.value].phase == Running)
    requires !Expired(s) ==> RunningOk(s)
    ensures Inv(Preempt(s))
    ensures s.current.Some? ==> Preempt(s).current.Some?
  {
    if Expired(s) { InvYield(s); }
  }

  lemma InvSettle(s: Sched)
    requires Inv(s)
    ensures Inv(Settle(s))
    ensures Settle(s).current == s.current
  {
    if s.config.kind.Mlfq? {
      InvAge(s);
      if BoostDue(s) { InvBoost(Age(s)); }
    }
  }

  lemma InvTick(s: Sched)
    requires Inv(s)
    ensures Inv(Tick(s))
    ensures s.current.Some? ==> Tick(s).current.Some?
  {
    hide Consistent;
    CoreCharge(s);
    if s.current.Some? {
      InvPreempt(Charge(s));
      InvSettle(Preempt(Charge(s)));
    }
  }

  /** A fresh PID in a free slot is a ready process in flight. */
  lemma CoreFresh(s: Sched, i: nat, p: Proc)
    requires Inv(s) && i < MAX_PROCESSES && Free(s.procs[i])
    requires p.pid == s.nextPid && p.phase == Ready && p.priority < MAX_PRIORITY_LEVELS
    requires p.timeCreated == s.ticks && p.timeUsed == 0 && p.slice <= 40
    ensures Core(SetProc(s, i, p).(nextPid := s.nextPid + 1), {i})
    ensures RunningOk(SetProc(s, i, p).(nextPid := s.nextPid + 1))
  {
    var r := SetProc(s, i, p).(nextPid := s.nextPid + 1);
    assert ProcOk(s, i);
    forall k | 0 <= k < QUEUES ensures QueueOk(r, k, {i}) {
      assert QueueOk(s, k, {});
    }
    forall k | 0 <= k < MAX_PROCESSES ensures ProcOk(r, k) && s.procs[k].pid != p.pid {
      assert ProcOk(s, k);
    }
    forall k | 0 <= k < MAX_PROCESSES && r.procs[k].phase == Ready && k !in {i} ensures Queued(r, k) {
      assert Queued(s, k);
    }
  }

  lemma InvCreate(s: Sched, priority: nat)
    requires Inv(s) && priority < MAX_PRIORITY_LEVELS
    ensures Inv(Create(s, priority))
  {
    if FirstFree(s.procs, 0).Some? {
      var i := FirstFree(s.procs, 0).value;
      var p := s.procs[i].(
        pid := s.nextPid, phase := Ready, priority := priority,
        timeCreated := s.ticks, timeStarted := 0, timeUsed := 0,
        slice := TIME_SLICE_BASE * (MAX_PRIORITY_LEVELS - priority), sliceUsed := 0);
      CoreFresh(s, i, p);
      CoreEnqueue(SetProc(s, i, p).(nextPid := s.nextPid + 1), i, {i});
      assert {i} - {i} == {};
    }
  }

  lemma RetireQueueOk(s: Sched, i: nat, k: nat)
    requires Inv(s) && i < MAX_PROCESSES && k < QUEUES
    ensures QueueOk(Retire(s, i), k, {})
  {
    var q := QueueOf(s.config, s.procs[i]);
    var r := Retire(s, i);
    assert QueueOk(s, q, {}) && QueueOk(s, k, {});
    WithoutDistinct(s.queues[q], i);
    assert i !in r.queues[k];
    forall j | 0 <= j < |r.queues[k]| ensures r.queues[k][j] != i && r.queues[k][j] in s.queues[k] {
      assert r.queues[k][j] in r.queues[k];
    }
  }

  lemma CoreRetire(s: Sched, i: nat)
    requires Inv(s) && i < MAX_PROCESSES
    ensures Core(Retire(s, i).(current := if s.current == Some(i) then None else s.current), {})
  {
    var r := Retire(s, i).(current := if s.current == Some(i) then None else s.current);
    forall k | 0 <= k < QUEUES ensures QueueOk(r, k, {}) {
      RetireQueueOk(s, i, k);
    }
    forall k | 0 <= k < MAX_PROCESSES ensures ProcOk(r, k) {
      assert ProcOk(s, k);
    }
    forall k | 0 <= k < MAX_PROCESSES && r.procs[k].phase == Ready ensures Queued(r, k) {
      assert Queued(s, k);
    }
  }

  lemma InvTerminate(s: Sched, pid: nat)
    requires Inv(s)
    ensures Inv(Terminate(s, pid))
  {
    if FirstMatch(s.procs, pid, 0).Some? {
      var i := FirstMatch(s.procs, pid, 0).value;
      CoreRetire(s, i);
      var s1 := Retire(s, i);
      if s.current.Some? {
        assert ProcOk(s, s.current.value);
        assert s1.procs[s.current.value].pid == s.procs[s.current.value].pid;
      }
      if s1.current.Some? && s1.procs[s1.current.value].pid == pid {
        assert s.current == Some(i);
        InvSchedule(s1.(current := None));
      }
    }
  }

  lemma InvStep(s: Sched, e: Event)
    requires Inv(s) && Legal(e)
    ensures Inv(Step(s, e))
  {
    match e
    case ECreate(p) => InvCreate(s, p);
    case ETick => InvTick(s);
    case EYield => InvYield(s);
    case ESchedule => InvSchedule(s);
    case ETerminate(pid) => InvTerminate(s, pid);
  }

  // ----- main results ------------------------------------------------------------

  lemma {:induction false} InvRun(s: Sched, es: seq<Event>)
    requires Inv(s) && AllLegal(es)
    ensures Inv(Run(s, es))
    decreases es
  {
    if es != [] {
      InvStep(s, es[0]);
      InvRun(Step(s, es[0]), es[1..]);
    }
  }

  /** Each live process is either running or in exactly one queue, once, at its level. */
  ghost predicate Partitioned(s: Sched)
    requires Shape(s)
  {
    && (forall i :: 0 <= i < MAX_PROCESSES && Live(s.procs[i]) ==> ((s.current == Some(i)) <==> !Queued(s, i)))
    && (forall q :: 0 <= q < QUEUES ==> Distinct(s.queues[q]))
    && (forall q, q', k :: 0 <= q < QUEUES && 0 <= q' < QUEUES && q != q' && 0 <= k < |s.queues[q]| ==>
          s.queues[q][k] !in s.queues[q'])
    && (forall q, k :: 0 <= q < QUEUES && 0 <= k < |s.queues[q]| ==>
          Live(s.procs[s.queues[q][k]]) && QueueOf(s.config, s.procs[s.queues[q][k]]) == q)
    && (s.current.Some? ==> Live(s.procs[s.current.value]))
  }

  ghost predicate PidsUnique(s: Sched)
    requires Shape(s)
  {
    && (forall i :: 0 <= i < MAX_PROCESSES && Live(s.procs[i]) ==> 0 < s.procs[i].pid < s.nextPid)
    && (forall i, j :: 0 <= i < j < MAX_PROCESSES && Live(s.procs[i]) && Live(s.procs[j]) ==>
          s.procs[i].pid != s.procs[j].pid)
  }

  lemma InvInit(c: Config)
    ensures Inv(Init(c))
  {
  }

  lemma InvPartition(s: Sched)
    requires Inv(s)
    ensures Partitioned(s) && PidsUnique(s)
  {
    forall i | 0 <= i < MAX_PROCESSES
      ensures ProcOk(s, i) && (Live(s.procs[i]) ==> ((s.current == Some(i)) <==> !Queued(s, i)))
    {
      assert ProcOk(s, i);
      assert QueueOk(s, QueueOf(s.config, s.procs[i]), {});
    }
    forall q | 0 <= q < QUEUES
      ensures Distinct(s.queues[q])
      ensures forall k :: 0 <= k < |s.queues[q]| ==>
                Live(s.procs[s.queues[q][k]]) && QueueOf(s.config, s.procs[s.queues[q][k]]) == q
    {
      assert QueueOk(s, q, {});
    }
    forall q, q', k | 0 <= q < QUEUES && 0 <= q' < QUEUES && q != q' && 0 <= k < |s.queues[q]|
      ensures s.queues[q][k] !in s.queues[q']
    {
      assert QueueOk(s, q, {}) && QueueOk(s, q', {});
    }
  }

  /** In every state reachable from initialisation the partition holds and PIDs are unique. */
  lemma RunsKeepPartition(c: Config, es: seq<Event>)
    requires AllLegal(es)
    ensures Partitioned(Run(Init(c), es)) && PidsUnique(Run(Init(c), es))
  {
    InvInit(c);
    InvRun(Init(c), es);
    InvPartition(Run(Init(c), es));
  }
}
