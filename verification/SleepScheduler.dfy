/**
 * The kernel scheduler around the linked sleep queue: every call is one step of
 * the machine of module SleepTimes, so its wake-up theorems hold of the queue in
 * place.  The sleep and wait queues are linked; the ready queue is a plain sequence, as
 * its helpers have no bodies in the source.
 */
module SleepScheduler {
  import opened Common
  import opened Sleeping
  import opened SleepTimes
  import opened Waiting

  /** A new process goes into a slot that is in no queue. */
  predicate InFreeSlot(k: Kernel, e: Event) {
    e.ECreate? ==> e.p < |k.d| && Absent(k, e.p) && e.p != k.idle
  }

  predicate FreeSlots(k: Kernel, es: seq<Event>)
    requires Shape(k)
    decreases es
  {
    es == [] || (InFreeSlot(k, es[0]) && FreeSlots(Step(k, es[0]), es[1..]))
  }

  class Machine {
    const queue: SleepQueue
    const waiting: WaitQueue
    const used: array<nat>
    const idle: nat
    var current: Current

    /** The abstract state: queues as sequences. */
    ghost function Abs(): (k: Kernel)
      reads this, queue, queue.deadline, waiting, used
    {
      Kernel(idle, queue.ticks, queue.deadline[..], used[..], queue.order, queue.ready, waiting.order, current)
    }

    ghost predicate Valid()
      reads this, queue, queue.next, queue.deadline, waiting, waiting.next, used
    {
      Linked() && Inv(Abs())
    }

    /** The parts are separate and the linked queues well formed. */
    ghost predicate Linked()
      reads this, queue, queue.next, queue.deadline, waiting, waiting.next
    {
      && used != queue.deadline && queue.next != waiting.next && waiting.next.Length == queue.next.Length
      && queue.Valid() && waiting.Valid()
    }

    /** scheduler_init: the idle process is created, so it is queued, and made current. */
    constructor (n: nat, idle: nat)
      requires idle < n
      ensures Valid() && fresh(queue) && fresh(queue.next) && fresh(queue.deadline) && fresh(used)
      ensures fresh(waiting) && fresh(waiting.next)
      ensures Abs() == Init(n, idle)
    {
      queue := new SleepQueue(n);
      waiting := new WaitQueue(n);
      used := new nat[n](_ => 0);
      this.idle := idle;
      current := Proc(idle);
      new;
      queue.ready := [idle];
      assert Abs().d == Init(n, idle).d && Abs().used == Init(n, idle).used;
      InvInit(n, idle);
    }

    /** scheduler_schedule; `stays` tells whether the current process is still runnable. */
    method Reschedule(stays: bool)
      requires Linked() && Shape(Abs())
      modifies `current, queue`ready
      ensures Linked() && Abs() == Dispatch(old(Abs()), stays)
    {
      var next := idle;
      if queue.ready != [] {
        next := queue.ready[0];
        queue.ready := queue.ready[1..];
      }
      if current != Proc(next) {
        if current.Proc? && current.p != idle && stays {
          queue.ready := queue.ready + [current.p];
        }
        current := Proc(next);
      }
    }

    /** scheduler_sleep_process */
    method SleepProcess(n: nat)
      requires Valid()
      modifies `current, queue, queue.next, queue.deadline
      ensures Linked() && Abs() == Sleep(old(Abs()), n)
    {
      hide Chained, Distinct;
      if current.Proc? && current.p != idle {
        queue.Sleep(current.p, n);
        Reschedule(false);
      }
    }

    /** update_process_times */
    method UpdateTimes()
      requires Linked() && Shape(Abs())
      modifies used
      ensures Abs() == old(Abs()).(used := Charged(old(Abs())))
      ensures Linked()
    {
      hide Chained, Distinct;
      if current.Proc? && current.p != idle {
        used[current.p] := used[current.p] + 1;
      }
    }

    /** scheduler_tick_handler; `again` tells whether it reschedules. */
    method TickHandler(again: bool)
      requires Valid()
      modifies `current, queue, queue.next, used
      ensures Linked() && Abs() == Tick(old(Abs()), again)
    {
      hide Inv, Asleep, Woken, Known, Chained;
      ShapeKnown();
      ghost var k := Abs();
      queue.ticks := queue.ticks + 1;
      UpdateTimes();
      queue.CheckSleeping();
      assert Abs() == Advance(k);
      if again {
        Reschedule(true);
      }
    }

    lemma ShapeKnown()
      requires Valid()
      ensures Shape(Abs())
    {
    }

    /** scheduler_yield */
    method YieldCpu()
      requires Valid()
      modifies `current, queue`ready
      ensures Linked() && Abs() == Dispatch(old(Abs()), true)
    {
      Reschedule(true);
    }

    /** scheduler_block_process */
    method BlockProcess()
      requires Valid()
      modifies `current, waiting, waiting.next, queue`ready
      ensures Linked() && Abs() == Block(old(Abs()))
    {
      if current.Proc? && current.p != idle {
        waiting.Enqueue(current.p);
        Reschedule(false);
      }
    }

    /** scheduler_wakeup_process */
    method WakeProcess(p: nat)
      requires Valid()
      modifies waiting, waiting.next, queue`ready
      ensures Linked() && Abs() == Wake(old(Abs()), p)
    {
      hide Chained;
      if p !in waiting.order { WithoutAbsent(waiting.order, p); }
      var found := waiting.TakeOut(p);
      if found {
        queue.ready := queue.ready + [p];
      }
    }

    /** The queue part of scheduler_set_priority. */
    method RequeueProcess(p: nat)
      requires Valid()
      modifies queue`ready
      ensures Linked() && Abs() == Requeue(old(Abs()), p)
    {
      if p in queue.ready && p != idle {
        queue.ready := Without(queue.ready, p) + [p];
      }
    }

    /** scheduler_create_process, in a slot that is in no queue */
    method CreateProcess(p: nat)
      requires Valid() && p < used.Length && Absent(Abs(), p) && p != idle
      modifies queue`ready, used
      ensures Linked() && Abs() == Create(old(Abs()), p)
    {
      queue.ready := queue.ready + [p];
      used[p] := 0;
    }

    /** scheduler_terminate_process */
    method TerminateProcess(p: nat)
      requires Valid()
      modifies `current, queue`ready
      ensures Linked() && Abs() == Terminate(old(Abs()), p)
    {
      queue.ready := Without(queue.ready, p);
      if current == Proc(p) {
        current := Nobody;
      }
    }

    /** Any call is one step of the machine, and the invariant survives it. */
    method Apply(e: Event)
      requires Valid() && InFreeSlot(Abs(), e)
      modifies this, queue, queue.next, queue.deadline, waiting, waiting.next, used
      ensures Valid() && Abs() == Step(old(Abs()), e)
    {
      InvStep(Abs(), e);
      match e
      case ESleep(n) => SleepProcess(n);
      case ETick(again) => TickHandler(again);
      case EYield => YieldCpu();
      case ECreate(p) => CreateProcess(p);
      case ETerminate(p) => TerminateProcess(p);
      case EBlock => BlockProcess();
      case EWake(p) => WakeProcess(p);
      case ERequeue(p) => RequeueProcess(p);
    }

    /** Whole runs. */
    method ApplyAll(es: seq<Event>)
      requires Valid() && FreeSlots(Abs(), es)
      modifies this, queue, queue.next, queue.deadline, waiting, waiting.next, used
      ensures Valid() && Abs() == Run(old(Abs()), es)
      decreases es
    {
      if es != [] {
        Apply(es[0]);
        ApplyAll(es[1..]);
      }
    }

    /**
     * The linked queue wakes on time: if process `p` runs, sleeps `n` ticks, and `es`
     * follows, it is still queued while the clock is before its wake-up tick, and
     * the tick that reaches it makes `p` runnable.
     */
    method SleepOnTime(n: nat, es: seq<Event>, again: bool, p: nat)
      requires Valid() && current == Proc(p) && p != idle && FreeSlots(Sleep(Abs(), n), es)
      requires Ticks(es) + 1 == WakeTick(0, n)
      modifies this, queue, queue.next, queue.deadline, waiting, waiting.next, used
      ensures Valid() && queue.ticks == old(queue.ticks) + WakeTick(0, n)
      ensures p !in queue.order && (p in queue.ready || current == Proc(p))
    {
      hide Sleep, Tick, Known, Distinct, Apart, Chained, FreeSlots;
      ghost var k := Abs();
      Apply(ESleep(n));
      ApplyAll(es);
      Apply(ETick(again));
      WokenOnTime(k, n, es, again, p);
    }
  }

  lemma WokenOnTime(k: Kernel, n: nat, es: seq<Event>, again: bool, p: nat)
    requires Inv(k) && k.current == Proc(p) && p != k.idle && Ticks(es) + 1 == WakeTick(0, n)
    ensures var r := Tick(Run(Sleep(k, n), es), again);
            r.ticks == k.ticks + WakeTick(0, n) && p !in r.sleep && (p in r.ready || r.current == Proc(p))
  {
    hide Inv, Sleep, Tick;
    ShapeOf(k);
    ClockCounts(Sleep(k, n), es);
    SleepClock(k, n);
    ExactlyThen(k, n, es, again, p);
    RunConcat(Sleep(k, n), es, [ETick(again)]);
    OneTick(Run(Sleep(k, n), es), again);
  }

  lemma ShapeOf(k: Kernel)
    requires Inv(k)
    ensures Shape(k)
  {
  }

  lemma SleepClock(k: Kernel, n: nat)
    requires Shape(k)
    ensures Sleep(k, n).ticks == k.ticks
  {
  }

  lemma OneTick(k: Kernel, again: bool)
    requires Shape(k)
    ensures Run(k, [ETick(again)]) == Tick(k, again)
  {
    assert [ETick(again)][1..] == [];
  }
}
