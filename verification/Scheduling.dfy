/**
 * The process scheduler as a step machine over values: what every call of the
 * scheduler does to the process table, the running process and the ready
 * queues.  Queue contents are sequences of table slots; the module
 * ProcessTable links them through the table itself.
 */
module Scheduling {
  import opened Common

  const MAX_PROCESSES: nat := 64
  const MAX_PRIORITY_LEVELS: nat := 4
  const TIME_SLICE_BASE: nat := 10

  /** Queues 0 to 3 are the MLFQ levels; queue READY is the single ready queue. */
  const READY: nat := 4
  const QUEUES: nat := 5

  datatype Kind = Fifo | RoundRobin | Mlfq | Cfs

  datatype Config = Config(kind: Kind, timeQuantum: nat, preemption: bool, levels: nat, boostInterval: nat)

  datatype Phase = New | Ready | Running | Blocked | Terminated

  datatype Proc = Proc(
    pid: nat, phase: Phase, priority: nat,
    timeCreated: nat, timeStarted: nat, timeUsed: nat,
    slice: nat, sliceUsed: nat, inQueue: nat, promotions: nat)

  datatype Sched = Sched(
    config: Config, procs: seq<Proc>, current: Option<nat>, queues: seq<seq<nat>>,
    nextPid: nat, ticks: nat, lastBoost: nat,
    switches: nat, completed: nat, totalRuntime: nat)

  predicate InTable(xs: seq<nat>) {
    forall k :: 0 <= k < |xs| ==> xs[k] < MAX_PROCESSES
  }

  predicate Shape(s: Sched) {
    && |s.procs| == MAX_PROCESSES
    && |s.queues| == QUEUES
    && (s.current.Some? ==> s.current.value < MAX_PROCESSES)
    && (forall q :: 0 <= q < QUEUES ==> InTable(s.queues[q]))
  }

  // ----- the operations ------------------------------------------------------

  /** What dispatching never touches. */
  predicate SameClock(s: Sched, r: Sched) {
    && r.config == s.config && r.ticks == s.ticks && r.lastBoost == s.lastBoost
    && r.nextPid == s.nextPid && r.completed == s.completed && r.totalRuntime == s.totalRuntime
  }

  /** Time slice of an MLFQ level; levels beyond the configured ones keep slice 0. */
  function LevelSlice(c: Config, level: nat): (r: nat)
    requires level < MAX_PRIORITY_LEVELS
    ensures r <= 80 && (level == 0 ==> r <= 10)
  {
    if level < c.levels then [10, 20, 40, 80][level] else 0
  }

  /** The queue a ready process belongs to. */
  function QueueOf(c: Config, p: Proc): (q: nat)
    ensures q < QUEUES
  {
    if !c.kind.Mlfq? then READY
    else if p.priority >= MAX_PRIORITY_LEVELS then MAX_PRIORITY_LEVELS - 1
    else p.priority
  }

  function SetProc(s: Sched, i: nat, p: Proc): (r: Sched)
    requires Shape(s) && i < MAX_PROCESSES
    ensures Shape(r) && SameClock(s, r)
  {
    s.(procs := s.procs[i := p])
  }

  function Enqueue(s: Sched, i: nat): (r: Sched)
    requires Shape(s) && i < MAX_PROCESSES
    ensures Shape(r) && SameClock(s, r)
  {
    var q := QueueOf(s.config, s.procs[i]);
    s.(queues := s.queues[q := s.queues[q] + [i]])
  }

  /** The queue whose head is served next: the first nonempty level, or the ready queue. */
  function Served(s: Sched): (r: Option<nat>)
    requires Shape(s)
    ensures r.Some? ==> r.value < QUEUES && s.queues[r.value] != []
    ensures r.Some? && r.value < READY ==> s.config.kind.Mlfq?
  {
    if s.config.kind.Mlfq? then
      if s.queues[0] != [] then Some(0)
      else if s.queues[1] != [] then Some(1)
      else if s.queues[2] != [] then Some(2)
      else if s.queues[3] != [] then Some(3)
      else None
    else if s.queues[READY] != [] then Some(READY)
    else None
  }

  /** Removes the head of queue `q`; MLFQ also hands it the slice of its level. */
  function Take(s: Sched, q: nat): (r: Sched)
    requires Shape(s) && q < QUEUES && s.queues[q] != []
    ensures Shape(r) && SameClock(s, r)
  {
    var n := s.queues[q][0];
    var s1 := s.(queues := s.queues[q := s.queues[q][1..]]);
    if q < MAX_PRIORITY_LEVELS
    then SetProc(s1, n, s.procs[n].(slice := LevelSlice(s.config, q), inQueue := 0))
    else s1
  }

  /** A running process that loses the CPU goes to the end of its queue. */
  function PutBack(s: Sched): (r: Sched)
    requires Shape(s)
    ensures Shape(r) && SameClock(s, r) && r.current == s.current
  {
    if s.current.Some? && s.procs[s.current.value].phase == Running then
      var c := s.current.value;
      Enqueue(SetProc(s, c, s.procs[c].(phase := Ready)), c)
    else s
  }

  function Switch(s: Sched, n: nat): (r: Sched)
    requires Shape(s) && n < MAX_PROCESSES
    ensures Shape(r) && SameClock(s, r) && r.current == Some(n)
  {
    SetProc(s, n, s.procs[n].(phase := Running, timeStarted := s.ticks, sliceUsed := 0))
      .(current := Some(n), switches := s.switches + 1)
  }

  function Resume(s: Sched, n: nat): (r: Sched)
    requires Shape(s) && n < MAX_PROCESSES
    ensures Shape(r) && SameClock(s, r)
  {
    SetProc(s, n, s.procs[n].(phase := Running, sliceUsed := 0))
  }

  function Schedule(s: Sched): (r: Sched)
    requires Shape(s)
    ensures Shape(r) && SameClock(s, r)
  {
    match Served(s)
    case None => s
    case Some(q) =>
      var n := s.queues[q][0];
      var s1 := Take(s, q);
      if s.current == Some(n) then Resume(s1, n) else Switch(PutBack(s1), n)
  }

  function Release(s: Sched): (r: Sched)
    requires Shape(s)
    ensures Shape(r) && SameClock(s, r)
  {
    if s.current.None? then s
    else
      var c := s.current.value;
      Enqueue(SetProc(s, c, s.procs[c].(phase := Ready)), c)
  }

  function Yield(s: Sched): (r: Sched)
    requires Shape(s)
    ensures Shape(r) && SameClock(s, r)
  {
    Schedule(Release(s))
  }

  function Promote(p: Proc): (r: Proc) {
    p.(priority := 0, inQueue := 0, promotions := (p.promotions + 1) % 256)
  }

  function Lower(s: Sched): (r: seq<nat>)
    requires Shape(s)
  {
    s.queues[1] + s.queues[2] + s.queues[3]
  }

  /** Every process of levels 1 to 3 moves, in order, behind level 0. */
  function Boost(s: Sched): (r: Sched)
    requires Shape(s)
    ensures Shape(r) && SameClock(s, r)
  {
    var low := Lower(s);
    s.(queues := [s.queues[0] + low, [], [], [], s.queues[READY]],
       procs := seq(MAX_PROCESSES, i requires 0 <= i < MAX_PROCESSES =>
         if i in low then Promote(s.procs[i]) else s.procs[i]))
  }

  /** The tick charged to the running process. */
  function Charge(s: Sched): (r: Sched)
    requires Shape(s)
    ensures Shape(r) && r.config == s.config && r.ticks == s.ticks + 1 && r.totalRuntime == s.totalRuntime
  {
    if s.current.None? then s.(ticks := s.ticks + 1)
    else
      var c := s.current.value;
      var p := s.procs[c];
      SetProc(s, c, p.(timeUsed := p.timeUsed + 1, sliceUsed := p.sliceUsed + 1)).(ticks := s.ticks + 1)
  }

  predicate Expired(s: Sched)
    requires Shape(s)
  {
    s.config.preemption && s.current.Some? &&
    s.procs[s.current.value].sliceUsed >= s.procs[s.current.value].slice
  }

  function Age(s: Sched): (r: Sched)
    requires Shape(s)
    ensures Shape(r) && SameClock(s, r)
  {
    if s.current.None? then s
    else
      var c := s.current.value;
      SetProc(s, c, s.procs[c].(inQueue := s.procs[c].inQueue + 1))
  }

  predicate BoostDue(s: Sched) {
    s.ticks - s.lastBoost >= s.config.boostInterval
  }

  /** An expired slice makes the running process yield. */
  function Preempt(s: Sched): (r: Sched)
    requires Shape(s)
    ensures Shape(r) && SameClock(s, r)
  {
    if Expired(s) then Yield(s) else s
  }

  /** The MLFQ part of a tick: time in the queue, and a boost when one is due. */
  function Settle(s: Sched): (r: Sched)
    requires Shape(s)
    ensures Shape(r) && r.config == s.config && r.ticks == s.ticks && r.totalRuntime == s.totalRuntime
  {
    if !s.config.kind.Mlfq? then s
    else if BoostDue(s) then Boost(Age(s)).(lastBoost := s.ticks)
    else Age(s)
  }

  function Tick(s: Sched): (r: Sched)
    requires Shape(s)
    ensures Shape(r) && r.config == s.config && r.ticks == s.ticks + 1
  {
    if s.current.None? then Charge(s) else Settle(Preempt(Charge(s)))
  }

  predicate Free(p: Proc) {
    p.phase == Terminated || p.pid == 0
  }

  /** First free slot from `i` on. */
  function FirstFree(procs: seq<Proc>, i: nat): (r: Option<nat>)
    requires i <= |procs|
    ensures r.Some? ==> i <= r.value < |procs| && Free(procs[r.value])
    ensures r.Some? ==> forall j :: i <= j < r.value ==> !Free(procs[j])
    ensures r.None? ==> forall j :: i <= j < |procs| ==> !Free(procs[j])
    decreases |procs| - i
  {
    if i == |procs| then None
    else if Free(procs[i]) then Some(i)
    else FirstFree(procs, i + 1)
  }

  function Create(s: Sched, priority: nat): (r: Sched)
    requires Shape(s) && priority < MAX_PRIORITY_LEVELS
    ensures Shape(r) && r.config == s.config && r.ticks == s.ticks
  {
    match FirstFree(s.procs, 0)
    case None => s
    case Some(i) =>
      var p := s.procs[i].(
        pid := s.nextPid, phase := Ready, priority := priority,
        timeCreated := s.ticks, timeStarted := 0, timeUsed := 0,
        slice := TIME_SLICE_BASE * (MAX_PRIORITY_LEVELS - priority), sliceUsed := 0);
      Enqueue(SetProc(s, i, p).(nextPid := s.nextPid + 1), i)
  }

  predicate Matches(p: Proc, pid: nat) {
    p.pid == pid && p.phase != Terminated
  }

  function FirstMatch(procs: seq<Proc>, pid: nat, i: nat): (r: Option<nat>)
    requires i <= |procs|
    ensures r.Some? ==> i <= r.value < |procs| && Matches(procs[r.value], pid)
    ensures r.Some? ==> forall j :: i <= j < r.value ==> !Matches(procs[j], pid)
    ensures r.None? ==> forall j :: i <= j < |procs| ==> !Matches(procs[j], pid)
    decreases |procs| - i
  {
    if i == |procs| then None
    else if Matches(procs[i], pid) then Some(i)
    else FirstMatch(procs, pid, i + 1)
  }

  function Unlink(s: Sched, i: nat): (r: Sched)
    requires Shape(s) && i < MAX_PROCESSES
    ensures Shape(r) && SameClock(s, r)
  {
    var q := QueueOf(s.config, s.procs[i]);
    var rest := Without(s.queues[q], i);
    assert forall k :: 0 <= k < |rest| ==> rest[k] in rest;
    s.(queues := s.queues[q := rest])
  }

  /** Table slot `i` ends: its time moves to the statistics. */
  function Retire(s: Sched, i: nat): (r: Sched)
    requires Shape(s) && i < MAX_PROCESSES
    ensures Shape(r) && r.config == s.config && r.ticks == s.ticks
  {
    Unlink(SetProc(s, i, s.procs[i].(phase := Terminated)), i)
      .(completed := s.completed + 1, totalRuntime := s.totalRuntime + s.procs[i].timeUsed)
  }

  function Terminate(s: Sched, pid: nat): (r: Sched)
    requires Shape(s)
    ensures Shape(r) && r.config == s.config && r.ticks == s.ticks
  {
    match FirstMatch(s.procs, pid, 0)
    case None => s
    case Some(i) =>
      var s1 := Retire(s, i);
      if s1.current.Some? && s1.procs[s1.current.value].pid == pid
      then Schedule(s1.(current := None))
      else s1
  }

  function Init(c: Config): (s: Sched)
    ensures Shape(s)
  {
    var slice := if c.kind.RoundRobin? then c.timeQuantum else 0;
    Sched(c, seq(MAX_PROCESSES, _ => Proc(0, New, 0, 0, 0, 0, slice, 0, 0, 0)), None,
          [[], [], [], [], []], 1, 0, 0, 0, 0, 0)
  }

  // ----- runs ----------------------------------------------------------------

  datatype Event = ECreate(priority: nat) | ETick | EYield | ESchedule | ETerminate(pid: nat)

  predicate Legal(e: Event) {
    e.ECreate? ==> e.priority < MAX_PRIORITY_LEVELS
  }

  function Step(s: Sched, e: Event): (r: Sched)
    requires Shape(s) && Legal(e)
    ensures Shape(r) && r.config == s.config && r.ticks == s.ticks + (if e.ETick? then 1 else 0)
  {
    match e
    case ECreate(p) => Create(s, p)
    case ETick => Tick(s)
    case EYield => Yield(s)
    case ESchedule => Schedule(s)
    case ETerminate(pid) => Terminate(s, pid)
  }

  predicate AllLegal(es: seq<Event>) {
    forall i :: 0 <= i < |es| ==> Legal(es[i])
  }

  function Run(s: Sched, es: seq<Event>): (r: Sched)
    requires Shape(s) && AllLegal(es)
    ensures Shape(r) && r.config == s.config
    decreases es
  {
    if es == [] then s else Run(Step(s, es[0]), es[1..])
  }

  function Ticks(es: seq<Event>): (n: nat) {
    if es == [] then 0 else (if es[0].ETick? then 1 else 0) + Ticks(es[1..])
  }
}
