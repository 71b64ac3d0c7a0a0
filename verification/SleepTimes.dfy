/**
 * Runs of the kernel scheduler's sleep path: sleeping, ticking, dispatching.
 * A sleeper leaves the queue at its wake-up tick, never earlier and never later.
 */
module SleepTimes {
  import opened Common
  import opened Sleeping

  datatype Current = Nobody | Proc(p: nat)

  /**
   * Per slot: deadline `d` and charged ticks `used`.  Blocked processes are in
   * `wait`.  The idle process has the slot `idle`.
   */
  datatype Kernel = Kernel(
    idle: nat, ticks: nat, d: seq<nat>, used: seq<nat>,
    sleep: seq<nat>, ready: seq<nat>, wait: seq<nat>, current: Current)

  ghost predicate Shape(k: Kernel) {
    && Known(k.sleep, k.d) && Known(k.ready, k.d) && Known(k.wait, k.d) && |k.used| == |k.d|
    && (k.current.Proc? ==> k.current.p < |k.d|) && k.idle < |k.d|
  }

  /** A process other than the idle one runs. */
  predicate Busy(k: Kernel) {
    k.current.Proc? && k.current.p != k.idle
  }

  /** scheduler_init: the idle process has been created, so it is queued, and is then made current as well. */
  function Init(n: nat, idle: nat): (k: Kernel)
    requires idle < n
    ensures Shape(k)
  {
    Kernel(idle, 0, seq(n, _ => 0), seq(n, _ => 0), [], [idle], [], Proc(idle))
  }

  /**
   * scheduler_schedule: the head of the ready queue, or else the idle process.
   * `stays` tells whether the current process is still running; the idle process
   * is never queued again.
   */
  function Dispatch(k: Kernel, stays: bool): (r: Kernel)
    requires Shape(k)
    ensures Shape(r) && r.sleep == k.sleep && r.wait == k.wait && r.d == k.d && r.used == k.used
    ensures r.ticks == k.ticks && r.idle == k.idle
  {
    var next := if k.ready == [] then k.idle else k.ready[0];
    var rest := if k.ready == [] then [] else k.ready[1..];
    if k.current == Proc(next) then k.(ready := rest)
    else k.(current := Proc(next), ready := rest + if Busy(k) && stays then [k.current.p] else [])
  }

  /** scheduler_sleep_process */
  function Sleep(k: Kernel, n: nat): (r: Kernel)
    requires Shape(k)
    ensures Shape(r)
  {
    if !Busy(k) then k
    else
      var p := k.current.p;
      Dispatch(k.(d := k.d[p := k.ticks + n], sleep := k.sleep + [p]), false)
  }

  /** update_process_times: the running process is charged the tick. */
  function Charged(k: Kernel): (used: seq<nat>)
    requires Shape(k)
    ensures |used| == |k.used|
  {
    if Busy(k) then k.used[k.current.p := k.used[k.current.p] + 1] else k.used
  }

  /** scheduler_tick_handler up to the rescheduling: time accounting and waking. */
  function Advance(k: Kernel): (r: Kernel)
    requires Shape(k)
    ensures Shape(r) && r.d == k.d && r.ticks == k.ticks + 1 && r.current == k.current && r.idle == k.idle
  {
    AllKnown(k.sleep, k.d, k.ticks + 1);
    k.(ticks := k.ticks + 1,
       used := Charged(k),
       sleep := Asleep(k.sleep, k.d, k.ticks + 1),
       ready := k.ready + Woken(k.sleep, k.d, k.ticks + 1))
  }

  /** scheduler_tick_handler; `again` tells whether it reschedules. */
  function Tick(k: Kernel, again: bool): (r: Kernel)
    requires Shape(k)
    ensures Shape(r) && r.d == k.d && r.ticks == k.ticks + 1 && r.idle == k.idle
  {
    if again then Dispatch(Advance(k), true) else Advance(k)
  }

  lemma AllKnown(xs: seq<nat>, d: seq<nat>, now: nat)
    requires Known(xs, d)
    ensures Known(Asleep(xs, d, now), d) && Known(Woken(xs, d, now), d)
  {
    assert forall i :: 0 <= i < |Asleep(xs, d, now)| ==> Asleep(xs, d, now)[i] in Asleep(xs, d, now);
    assert forall i :: 0 <= i < |Woken(xs, d, now)| ==> Woken(xs, d, now)[i] in Woken(xs, d, now);
  }

  predicate Absent(k: Kernel, p: nat) {
    p !in k.sleep && p !in k.ready && p !in k.wait && k.current != Proc(p)
  }

  /** A process in a free slot, never that of the idle process, becomes ready. */
  function Create(k: Kernel, p: nat): (r: Kernel)
    requires Shape(k)
    ensures Shape(r)
  {
    if p < |k.d| && Absent(k, p) && p != k.idle then k.(ready := k.ready + [p], used := k.used[p := 0]) else k
  }

  /** scheduler_block_process */
  function Block(k: Kernel): (r: Kernel)
    requires Shape(k)
    ensures Shape(r)
  {
    if !Busy(k) then k else Dispatch(k.(wait := k.wait + [k.current.p]), false)
  }

  lemma WithoutKnown(xs: seq<nat>, p: nat, d: seq<nat>)
    requires Known(xs, d)
    ensures Known(Without(xs, p), d)
  {
    assert forall i :: 0 <= i < |Without(xs, p)| ==> Without(xs, p)[i] in Without(xs, p);
  }

  /** scheduler_wakeup_process */
  function Wake(k: Kernel, p: nat): (r: Kernel)
    requires Shape(k)
    ensures Shape(r)
  {
    WithoutKnown(k.wait, p, k.d);
    if p in k.wait then k.(wait := Without(k.wait, p), ready := k.ready + [p]) else k
  }

  /**
   * The queue part of scheduler_set_priority: a ready process goes to the end.  The
   * idle process is marked running even while it is queued.
   */
  function Requeue(k: Kernel, p: nat): (r: Kernel)
    requires Shape(k)
    ensures Shape(r)
  {
    WithoutKnown(k.ready, p, k.d);
    if p in k.ready && p != k.idle then k.(ready := Without(k.ready, p) + [p]) else k
  }

  /** scheduler_terminate_process: a sleeping or blocked process stays in its queue. */
  function Terminate(k: Kernel, p: nat): (r: Kernel)
    requires Shape(k)
    ensures Shape(r)
  {
    WithoutKnown(k.ready, p, k.d);
    k.(ready := Without(k.ready, p), current := if k.current == Proc(p) then Nobody else k.current)
  }

  datatype Event =
    | ESleep(n: nat) | ETick(again: bool) | EYield | ECreate(p: nat) | ETerminate(p: nat)
    | EBlock | EWake(p: nat) | ERequeue(p: nat)

  function Step(k: Kernel, e: Event): (r: Kernel)
    requires Shape(k)
    ensures Shape(r) && r.idle == k.idle && |r.d| == |k.d|
  {
    match e
    case ESleep(n) => Sleep(k, n)
    case ETick(again) => Tick(k, again)
    case EYield => Dispatch(k, true)
    case ECreate(p) => Create(k, p)
    case ETerminate(p) => Terminate(k, p)
    case EBlock => Block(k)
    case EWake(p) => Wake(k, p)
    case ERequeue(p) => Requeue(k, p)
  }

  function Run(k: Kernel, es: seq<Event>): (r: Kernel)
    requires Shape(k)
    ensures Shape(r)
    decreases es
  {
    if es == [] then k else Run(Step(k, es[0]), es[1..])
  }

  // ----- the invariant ----------------------------------------------------------------

  ghost predicate Apart(xs: seq<nat>, ys: seq<nat>) {
    forall p :: p in xs ==> p !in ys
  }

  /** The queues hold no process twice, and the idle process at most once: at the head of the ready queue. */
  ghost predicate Queues(k: Kernel) {
    && Shape(k)
    && Distinct(k.sleep) && Distinct(k.ready) && Distinct(k.wait)
    && Apart(k.sleep, k.ready) && Apart(k.sleep, k.wait) && Apart(k.ready, k.wait)
    && k.idle !in k.sleep && k.idle !in k.wait
    && (k.idle in k.ready ==> k.ready[0] == k.idle && k.current == Proc(k.idle))
  }

  /**
   * A process is current, ready, asleep or blocked, and only one of them; only the
   * idle process is current and queued at once, until the first dispatch.
   */
  ghost predicate Inv(k: Kernel) {
    && Queues(k)
    && (Busy(k) ==> k.current.p !in k.sleep && k.current.p !in k.ready && k.current.p !in k.wait)
  }

  lemma InvInit(n: nat, idle: nat)
    requires idle < n
    ensures Inv(Init(n, idle))
  {
  }

  lemma {:induction false} PassDistinct(xs: seq<nat>, d: seq<nat>, now: nat)
    requires Known(xs, d) && Distinct(xs)
    ensures Distinct(Asleep(xs, d, now)) && Distinct(Woken(xs, d, now))
  {
    if xs != [] {
      PassDistinct(xs[1..], d, now);
      assert xs[0] !in xs[1..];
    }
  }

  lemma InvDispatch(k: Kernel, stays: bool)
    requires Queues(k)
    requires Busy(k) ==> k.current.p !in k.ready && (stays ==> k.current.p !in k.sleep && k.current.p !in k.wait)
    ensures Inv(Dispatch(k, stays))
    ensures k.idle !in Dispatch(k, stays).ready
  {
    if k.ready != [] { assert k.ready[0] in k.ready; }
  }

  /** Dispatching loses nobody: a ready process stays ready or runs. */
  lemma DispatchKeeps(k: Kernel, stays: bool, p: nat)
    requires Shape(k) && p in k.ready
    ensures p in Dispatch(k, stays).ready || Dispatch(k, stays).current == Proc(p)
  {
    assert k.ready == [k.ready[0]] + k.ready[1..];
  }

  lemma TickWakes(k: Kernel, again: bool, p: nat)
    requires Shape(k) && p in k.sleep && p < |k.d| && k.d[p] <= k.ticks + 1
    ensures p !in Tick(k, again).sleep
    ensures p in Tick(k, again).ready || Tick(k, again).current == Proc(p)
  {
    assert p in Advance(k).ready;
    DispatchKeeps(Advance(k), true, p);
  }

  lemma InvAdvance(k: Kernel)
    requires Inv(k)
    ensures Inv(Advance(k))
  {
    var woken := Woken(k.sleep, k.d, k.ticks + 1);
    PassDistinct(k.sleep, k.d, k.ticks + 1);
    assert forall p :: p in woken ==> p in k.sleep;
    DistinctConcat(k.ready, woken);
  }

  lemma InvTick(k: Kernel, again: bool)
    requires Inv(k)
    ensures Inv(Tick(k, again))
  {
    hide Advance, Distinct;
    InvAdvance(k);
    InvDispatch(Advance(k), true);
  }

  lemma DistinctConcat(xs: seq<nat>, ys: seq<nat>)
    requires Distinct(xs) && Distinct(ys) && forall y :: y in ys ==> y !in xs
    ensures Distinct(xs + ys)
  {
    forall i, j | 0 <= i < j < |xs + ys| ensures (xs + ys)[i] != (xs + ys)[j] {
      if i < |xs| <= j { assert ys[j - |xs|] in ys; }
    }
  }

  lemma InvStep(k: Kernel, e: Event)
    requires Inv(k)
    ensures Inv(Step(k, e))
  {
    match e
    case ESleep(n) =>
      if Busy(k) {
        var p := k.current.p;
        DistinctConcat(k.sleep, [p]);
        InvDispatch(k.(d := k.d[p := k.ticks + n], sleep := k.sleep + [p]), false);
      }
    case ETick(again) => InvTick(k, again);
    case EYield => InvDispatch(k, true);
    case ECreate(p) => if Absent(k, p) { DistinctConcat(k.ready, [p]); }
    case ETerminate(p) => WithoutDistinct(k.ready, p);
    case EBlock =>
      if Busy(k) {
        var p := k.current.p;
        DistinctConcat(k.wait, [p]);
        InvDispatch(k.(wait := k.wait + [p]), false);
      }
    case EWake(p) =>
      WithoutDistinct(k.wait, p);
      if p in k.wait { DistinctConcat(k.ready, [p]); }
    case ERequeue(p) =>
      WithoutDistinct(k.ready, p);
      DistinctConcat(Without(k.ready, p), [p]);
  }

  lemma {:induction false} InvRun(k: Kernel, es: seq<Event>)
    requires Inv(k)
    ensures Inv(Run(k, es)) && Run(k, es).idle == k.idle
    decreases es
  {
    hide Distinct, Apart, Step;
    if es != [] {
      InvStep(k, es[0]);
      InvRun(Step(k, es[0]), es[1..]);
    }
  }

  /** From initialisation on every process but the idle one is in at most one place. */
  lemma RunsKeepPlaces(n: nat, idle: nat, es: seq<Event>, p: nat)
    requires idle < n && p != idle
    ensures var k := Run(Init(n, idle), es);
            && Distinct(k.sleep) && Distinct(k.ready) && Distinct(k.wait)
            && (p in k.sleep ==> p !in k.ready && p !in k.wait)
            && (p in k.ready ==> p !in k.wait)
            && (k.current == Proc(p) ==> p !in k.sleep && p !in k.ready && p !in k.wait)
            && idle !in k.sleep && idle !in k.wait
            && (idle in k.ready ==> k.current == Proc(idle))
  {
    InvInit(n, idle);
    InvRun(Init(n, idle), es);
  }

  // ----- exact wake-up ------------------------------------------------------------------------

  /** `p` sleeps and will be woken by the tick that makes the clock `w`. */
  ghost predicate SleepsUntil(k: Kernel, p: nat, w: nat) {
    && Inv(k) && p in k.sleep && p < |k.d| && k.ticks < w
    && (k.d[p] == w || (k.d[p] < w && w == k.ticks + 1))
  }

  /** Until the clock reaches `w` the process stays asleep and is charged nothing. */
  lemma StepSleeps(k: Kernel, e: Event, p: nat, w: nat)
    requires SleepsUntil(k, p, w)
    ensures var r := Step(k, e);
            && |r.used| == |k.used|
            && if r.ticks < w then SleepsUntil(r, p, w) && r.used[p] == k.used[p]
               else r.ticks == w && p !in r.sleep && (p in r.ready || r.current == Proc(p))
  {
    InvStep(k, e);
    if e.ETick? && k.ticks + 1 == w { TickWakes(k, e.again, p); }
  }

  lemma {:induction false} RunSleeps(k: Kernel, es: seq<Event>, p: nat, w: nat)
    requires SleepsUntil(k, p, w) && Run(k, es).ticks < w
    ensures SleepsUntil(Run(k, es), p, w)
    ensures |Run(k, es).used| == |k.used| && Run(k, es).used[p] == k.used[p]
    decreases es
  {
    if es != [] {
      ClockCounts(Step(k, es[0]), es[1..]);
      StepSleeps(k, es[0], p, w);
      RunSleeps(Step(k, es[0]), es[1..], p, w);
    }
  }

  function Ticks(es: seq<Event>): (n: nat) {
    if es == [] then 0 else (if es[0].ETick? then 1 else 0) + Ticks(es[1..])
  }

  lemma {:induction false} ClockCounts(k: Kernel, es: seq<Event>)
    requires Shape(k)
    ensures Run(k, es).ticks == k.ticks + Ticks(es)
    decreases es
  {
    if es != [] { ClockCounts(Step(k, es[0]), es[1..]); }
  }

  lemma {:induction false} RunConcat(k: Kernel, xs: seq<Event>, ys: seq<Event>)
    requires Shape(k)
    ensures Run(k, xs + ys) == Run(Run(k, xs), ys)
    decreases xs
  {
    if xs == [] {
      assert xs + ys == ys;
    } else {
      assert (xs + ys)[1..] == xs[1..] + ys;
      RunConcat(Step(k, xs[0]), xs[1..], ys);
    }
  }

  /** The tick at which a process that sleeps `n` ticks from tick `t` on is woken. */
  function WakeTick(t: nat, n: nat): (w: nat)
    ensures n >= 1 ==> w == t + n
    ensures n == 0 ==> w == t + 1
  {
    if n == 0 then t + 1 else t + n
  }

  /** What happens in between: as long as the clock is before the wake-up tick, the process sleeps. */
  lemma NeverEarlier(k: Kernel, n: nat, es: seq<Event>, p: nat)
    requires Inv(k) && k.current == Proc(p) && p != k.idle
    requires Run(Sleep(k, n), es).ticks < WakeTick(k.ticks, n)
    ensures p in Run(Sleep(k, n), es).sleep
    ensures |Run(Sleep(k, n), es).used| == |k.used| && Run(Sleep(k, n), es).used[p] == k.used[p]
  {
    InvStep(k, ESleep(n));
    RunSleeps(Sleep(k, n), es, p, WakeTick(k.ticks, n));
  }

  /** The tick that brings the clock to the wake-up tick takes the process out and makes it runnable. */
  lemma ExactlyThen(k: Kernel, n: nat, es: seq<Event>, again: bool, p: nat)
    requires Inv(k) && k.current == Proc(p) && p != k.idle
    requires Run(Sleep(k, n), es).ticks == WakeTick(k.ticks, n) - 1
    ensures var r := Run(Sleep(k, n), es + [ETick(again)]);
            && r.ticks == WakeTick(k.ticks, n)
            && p !in r.sleep && (p in r.ready || r.current == Proc(p))
  {
    InvStep(k, ESleep(n));
    var s := Sleep(k, n);
    RunSleeps(s, es, p, WakeTick(k.ticks, n));
    RunConcat(s, es, [ETick(again)]);
    StepSleeps(Run(s, es), ETick(again), p, WakeTick(k.ticks, n));
  }

  // ----- after termination --------------------------------------------------------------------

  predicate Runnable(k: Kernel, p: nat) {
    p in k.ready || k.current == Proc(p)
  }

  /** At some point of the run `p` is ready or runs. */
  predicate EverRunnable(k: Kernel, es: seq<Event>, p: nat)
    requires Shape(k)
    decreases es
  {
    Runnable(k, p) || (es != [] && EverRunnable(Step(k, es[0]), es[1..], p))
  }

  /** The step dispatches and finds the ready queue empty. */
  predicate FindsEmpty(k: Kernel, e: Event)
    requires Shape(k)
  {
    match e
    case ESleep(_) => Busy(k) && k.ready == []
    case EBlock => Busy(k) && k.ready == []
    case EYield => k.ready == []
    case ETick(again) => again && Advance(k).ready == []
    case _ => false
  }

  predicate EverFindsEmpty(k: Kernel, es: seq<Event>)
    requires Shape(k)
    decreases es
  {
    es != [] && (FindsEmpty(k, es[0]) || EverFindsEmpty(Step(k, es[0]), es[1..]))
  }

  /**
   * A process that is nowhere stays nowhere until its slot is used again, unless it
   * is the idle process and a dispatch has nobody else.
   */
  lemma {:induction false} AbsentRuns(k: Kernel, es: seq<Event>, p: nat)
    requires Inv(k) && Absent(k, p) && ECreate(p) !in es
    ensures EverRunnable(k, es, p) <==> p == k.idle && EverFindsEmpty(k, es)
    decreases es
  {
    hide Distinct, Apart, FindsEmpty, Step;
    if es != [] {
      InvStep(k, es[0]);
      if p == k.idle && FindsEmpty(k, es[0]) {
        IdleDispatched(k, es[0]);
      } else {
        StepAbsent(k, es[0], p);
        AbsentRuns(Step(k, es[0]), es[1..], p);
      }
    }
  }

  lemma IdleDispatched(k: Kernel, e: Event)
    requires Shape(k) && k.current != Proc(k.idle) && FindsEmpty(k, e)
    ensures Step(k, e).current == Proc(k.idle)
  {
  }

  lemma DispatchAbsent(k: Kernel, stays: bool, p: nat)
    requires Shape(k) && Absent(k, p) && (p == k.idle ==> k.ready != [])
    ensures Absent(Dispatch(k, stays), p)
  {
    if k.ready != [] { assert k.ready[0] in k.ready; }
  }

  lemma AdvanceAbsent(k: Kernel, p: nat)
    requires Shape(k) && Absent(k, p)
    ensures Absent(Advance(k), p)
  {
  }

  lemma StepAbsent(k: Kernel, e: Event, p: nat)
    requires Inv(k) && Absent(k, p) && e != ECreate(p) && !(p == k.idle && FindsEmpty(k, e))
    ensures Absent(Step(k, e), p)
  {
    hide Distinct, Apart, Dispatch, Advance;
    match e
    case ESleep(n) =>
      if Busy(k) {
        DispatchAbsent(k.(d := k.d[k.current.p := k.ticks + n], sleep := k.sleep + [k.current.p]), false, p);
      }
    case ETick(again) =>
      AdvanceAbsent(k, p);
      if again { DispatchAbsent(Advance(k), true, p); }
    case EYield => DispatchAbsent(k, true, p);
    case EBlock => if Busy(k) { DispatchAbsent(k.(wait := k.wait + [k.current.p]), false, p); }
    case ECreate(_) =>
    case ETerminate(_) =>
    case EWake(_) =>
    case ERequeue(_) =>
  }

  /** A sleeper becomes runnable exactly when the clock reaches its wake-up tick. */
  lemma {:induction false} SleeperRuns(k: Kernel, es: seq<Event>, p: nat, w: nat)
    requires SleepsUntil(k, p, w)
    ensures EverRunnable(k, es, p) <==> Run(k, es).ticks >= w
    decreases es
  {
    if es != [] {
      var r := Step(k, es[0]);
      StepSleeps(k, es[0], p, w);
      ClockCounts(r, es[1..]);
      if r.ticks < w { SleeperRuns(r, es[1..], p, w); }
    }
  }

  /** A blocked process becomes runnable exactly when it is woken. */
  lemma {:induction false} BlockedRuns(k: Kernel, es: seq<Event>, p: nat)
    requires Inv(k) && p in k.wait
    ensures EverRunnable(k, es, p) <==> EWake(p) in es
    decreases es
  {
    if es != [] {
      var r := Step(k, es[0]);
      StepBlocked(k, es[0], p);
      assert es == [es[0]] + es[1..];
      if es[0] != EWake(p) { BlockedRuns(r, es[1..], p); }
    }
  }

  lemma StepBlocked(k: Kernel, e: Event, p: nat)
    requires Inv(k) && p in k.wait
    ensures Inv(Step(k, e)) && if e == EWake(p) then p in Step(k, e).ready else p in Step(k, e).wait
  {
    InvStep(k, e);
  }

  /**
   * A terminated process becomes runnable again, unless its slot is used for a new
   * one, exactly when it was asleep and the clock reaches its wake-up tick, or it
   * was blocked and is woken, or it is the idle process and a dispatch finds the
   * ready queue empty: scheduler_terminate_process leaves it in the sleep and wait
   * queues and does not spare the idle process, which scheduler_schedule falls back to.
   */
  lemma TerminatedRunsAgain(k: Kernel, es: seq<Event>, p: nat)
    requires Inv(k) && p < |k.d| && ECreate(p) !in es
    ensures EverRunnable(Terminate(k, p), es, p) <==>
              || (p in k.sleep && k.ticks + Ticks(es) >= DueTick(k, p))
              || (p in k.wait && EWake(p) in es)
              || (p == k.idle && EverFindsEmpty(Terminate(k, p), es))
  {
    hide EverFindsEmpty;
    var z := Terminate(k, p);
    InvStep(k, ETerminate(p));
    ClockCounts(z, es);
    if p in k.sleep {
      SleeperRuns(z, es, p, DueTick(k, p));
    } else if p in k.wait {
      BlockedRuns(z, es, p);
    } else {
      AbsentRuns(z, es, p);
    }
  }

  /** The tick that wakes sleeper `p`: its deadline, or the next tick when that has passed. */
  function DueTick(k: Kernel, p: nat): (w: nat)
    requires p < |k.d|
    ensures w > k.ticks && w >= k.d[p] && (w == k.d[p] || w == k.ticks + 1)
  {
    if k.d[p] > k.ticks then k.d[p] else k.ticks + 1
  }

  /** So a process terminated right after it went to sleep for `n` ticks runs again once they have passed. */
  lemma TerminatedSleeperWakes(k: Kernel, n: nat, es: seq<Event>, p: nat)
    requires Inv(k) && k.current == Proc(p) && p != k.idle && ECreate(p) !in es
    ensures EverRunnable(Terminate(Sleep(k, n), p), es, p) <==> k.ticks + Ticks(es) >= WakeTick(k.ticks, n)
  {
    hide EverRunnable, Terminate;
    InvStep(k, ESleep(n));
    TerminatedRunsAgain(Sleep(k, n), es, p);
  }

  /** Process 1 runs, the idle process 0 does not. */
  const ONE_RUNS := Kernel(0, 0, [0, 0], [0, 0], [], [], [], Proc(1))

  lemma OneReachable()
    ensures Inv(ONE_RUNS) && ONE_RUNS == Run(Init(2, 0), [EYield, ECreate(1), EYield])
  {
    var k, es := Init(2, 0), [EYield, ECreate(1), EYield];
    assert k.d == [0, 0] && k.used == [0, 0];
    var k1 := Dispatch(k, true);
    assert k1 == Kernel(0, 0, [0, 0], [0, 0], [], [], [], Proc(0));
    var k2 := Create(k1, 1);
    assert k2 == Kernel(0, 0, [0, 0], [0, 0], [], [1], [], Proc(0));
    assert Dispatch(k2, true) == ONE_RUNS;
    assert es[1..] == [ECreate(1), EYield] && es[1..][1..] == [EYield] && es[1..][1..][1..] == [];
    assert Run(k, es) == Run(k1, es[1..]) == Run(k2, es[1..][1..]) == Run(ONE_RUNS, []);
  }

  /** The input: process 1 sleeps three ticks, is terminated, and runs again after three ticks. */
  lemma TerminatedSleeperInput()
    ensures EverRunnable(Terminate(Sleep(ONE_RUNS, 3), 1), [ETick(false), ETick(false), ETick(true)], 1)
  {
    hide EverRunnable, Terminate, Sleep;
    var es := [ETick(false), ETick(false), ETick(true)];
    assert es[1..] == [ETick(false), ETick(true)] && es[1..][1..] == [ETick(true)] && es[1..][1..][1..] == [];
    assert Ticks(es) == 1 + Ticks(es[1..]) == 2 + Ticks(es[1..][1..]) == 3 + Ticks(es[1..][1..][1..]);
    OneReachable();
    TerminatedSleeperWakes(ONE_RUNS, 3, es, 1);
  }

  /** The input: the idle process is terminated right after initialisation, and the next dispatch runs it. */
  lemma TerminatedIdleInput()
    ensures var z := Terminate(Init(1, 0), 0);
            Absent(z, 0) && Step(z, EYield).current == Proc(0) && EverRunnable(z, [EYield], 0)
  {
    hide EverRunnable;
    InvInit(1, 0);
    var z := Terminate(Init(1, 0), 0);
    assert z.ready == [] && FindsEmpty(z, [EYield][0]);
    TerminatedRunsAgain(Init(1, 0), [EYield], 0);
  }
}
