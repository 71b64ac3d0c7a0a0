/**
 * The order in which the kernel scheduler serves the processes, told without the
 * function that dispatches: who runs after how many decisions, who arrives where,
 * and who is charged which ticks.
 */
module SleepService {
  import opened Common
  import opened Rotation
  import opened Sleeping
  import opened SleepTimes

  /** The event makes the scheduler decide who runs; only a process other than the idle one can sleep or block. */
  predicate Decides(k: Kernel, e: Event) {
    match e
    case EYield => true
    case ETick(again) => again
    case ESleep(_) => Busy(k)
    case EBlock => Busy(k)
    case _ => false
  }

  function Decisions(k: Kernel, es: seq<Event>): (n: nat)
    requires Shape(k)
    decreases es
  {
    if es == [] then 0 else (if Decides(k, es[0]) then 1 else 0) + Decisions(Step(k, es[0]), es[1..])
  }

  // ----- nobody arrives or leaves: the processes take turns ---------------------------

  predicate YieldsAndTicks(es: seq<Event>) {
    forall i :: 0 <= i < |es| ==> es[i].EYield? || es[i].ETick?
  }

  /** In `r` the running and the ready processes stand as in `cycle`. */
  ghost predicate Stands(r: Kernel, cycle: seq<nat>) {
    && Inv(r) && r.sleep == [] && cycle != [] && r.current == Proc(cycle[0]) && r.ready == cycle[1..]
    && cycle[0] != r.idle
  }

  lemma StepTurns(k: Kernel, e: Event, cycle: seq<nat>)
    requires Stands(k, cycle) && |cycle| >= 2 && (e.EYield? || e.ETick?)
    ensures Stands(Step(k, e), if Decides(k, e) then cycle[1..] + [cycle[0]] else cycle)
    ensures Step(k, e).idle == k.idle
  {
    hide Distinct;
    InvStep(k, e);
    assert k.ready[0] == cycle[1] && k.ready[0] in k.ready;
    assert Woken([], k.d, k.ticks + 1) == [] && Asleep([], k.d, k.ticks + 1) == [];
    assert k.ready + [] == k.ready;
    assert cycle[1..][1..] + [cycle[0]] == (cycle[1..] + [cycle[0]])[1..];
  }

  lemma {:induction false} RunTurns(k: Kernel, es: seq<Event>, cycle: seq<nat>)
    requires Stands(k, cycle) && |cycle| >= 2 && YieldsAndTicks(es)
    ensures Stands(Run(k, es), Turned(cycle, Decisions(k, es)))
    decreases es
  {
    hide Distinct, Apart, Step;
    if es != [] {
      var turned := if Decides(k, es[0]) then cycle[1..] + [cycle[0]] else cycle;
      StepTurns(k, es[0], cycle);
      RunTurns(Step(k, es[0]), es[1..], turned);
      TurnedTwice(cycle, if Decides(k, es[0]) then 1 else 0, Decisions(Step(k, es[0]), es[1..]));
    }
  }

  /** After `j` decisions number `j` mod `n` of the initial order runs, and the others wait behind it in turn. */
  lemma TakeTurns(k: Kernel, es: seq<Event>)
    requires Inv(k) && Busy(k) && k.ready != [] && k.sleep == [] && YieldsAndTicks(es)
    ensures var cycle, r := [k.current.p] + k.ready, Run(k, es);
            && r.current == Proc(cycle[Decisions(k, es) % |cycle|])
            && r.ready == Turned(cycle, Decisions(k, es))[1..]
  {
    hide Distinct, Apart, Step, Turned;
    var cycle := [k.current.p] + k.ready;
    assert cycle[1..] == k.ready;
    RunTurns(k, es, cycle);
    TurnedHead(cycle, Decisions(k, es), 0);
  }

  /** A process alone takes turns with the idle process. */
  lemma {:induction false} AloneAlternates(k: Kernel, es: seq<Event>, p: nat)
    requires Inv(k) && k.sleep == [] && p != k.idle && p < |k.d| && YieldsAndTicks(es)
    requires (k.current == Proc(p) && k.ready == []) || (k.current == Proc(k.idle) && k.ready == [p])
    ensures var r, odd := Run(k, es), Decisions(k, es) % 2 == 1;
            if (k.current == Proc(p)) != odd then r.current == Proc(p) && r.ready == []
            else r.current == Proc(k.idle) && r.ready == [p]
    decreases es
  {
    hide Distinct, Apart, Step;
    if es != [] {
      StepAlternates(k, es[0], p);
      InvStep(k, es[0]);
      AloneAlternates(Step(k, es[0]), es[1..], p);
    }
  }

  lemma StepAlternates(k: Kernel, e: Event, p: nat)
    requires Inv(k) && k.sleep == [] && p != k.idle && p < |k.d| && (e.EYield? || e.ETick?)
    requires (k.current == Proc(p) && k.ready == []) || (k.current == Proc(k.idle) && k.ready == [p])
    ensures var r := Step(k, e);
            && r.sleep == []
            && if (k.current == Proc(p)) != Decides(k, e) then r.current == Proc(p) && r.ready == []
               else r.current == Proc(k.idle) && r.ready == [p]
  {
    hide Distinct;
    assert Woken([], k.d, k.ticks + 1) == [] && Asleep([], k.d, k.ticks + 1) == [];
    assert k.ready + [] == k.ready;
  }

  // ----- arrivals, sleepers and wake-ups: the queue is served in order -------------------

  /** Position `i` of the ready queue. */
  predicate At(k: Kernel, i: nat, p: nat) {
    i < |k.ready| && k.ready[i] == p
  }

  /** `p` runs, or is ready with at most `i` processes before it. */
  ghost predicate Within(k: Kernel, i: int, p: nat) {
    k.current == Proc(p) || exists j :: 0 <= j <= i && At(k, j, p)
  }

  lemma WithoutMoves(xs: seq<nat>, x: nat, i: nat) returns (j: nat)
    requires Distinct(xs) && i < |xs| && xs[i] != x
    ensures j <= i && j < |Without(xs, x)| && Without(xs, x)[j] == xs[i]
  {
    j := i;
    if x in xs {
      var m :| 0 <= m < |xs| && xs[m] == x;
      WithoutAt(xs, m);
      if m < i { j := i - 1; }
    } else {
      WithoutAbsent(xs, x);
    }
  }

  lemma StepServes(k: Kernel, e: Event, i: nat, p: nat)
    requires Inv(k) && p != k.idle && At(k, i, p) && e != ETerminate(p) && e != ERequeue(p)
    ensures Within(Step(k, e), if Decides(k, e) then i - 1 else i, p)
  {
    hide Distinct, Apart;
    var r := Step(k, e);
    match e
    case EYield => DecisionServes(k, true, i, p);
    case ETick(again) =>
      var a := Advance(k);
      assert At(a, i, p);
      if again { DecisionServes(a, true, i, p); }
    case ESleep(n) =>
      if Busy(k) {
        DecisionServes(k.(d := k.d[k.current.p := k.ticks + n], sleep := k.sleep + [k.current.p]), false, i, p);
      } else { assert At(r, i, p); }
    case EBlock =>
      if Busy(k) { DecisionServes(k.(wait := k.wait + [k.current.p]), false, i, p); } else { assert At(r, i, p); }
    case ECreate(q) => assert At(r, i, p);
    case EWake(q) => assert At(r, i, p);
    case ETerminate(q) =>
      var j := WithoutMoves(k.ready, q, i);
      assert At(r, j, p);
    case ERequeue(q) =>
      var j := WithoutMoves(k.ready, q, i);
      if r.ready == k.ready { assert At(r, i, p); } else { assert At(r, j, p); }
  }

  lemma DecisionServes(k: Kernel, stays: bool, i: nat, p: nat)
    requires Shape(k) && At(k, i, p)
    ensures Within(Dispatch(k, stays), i - 1, p)
  {
    if i > 0 { assert At(Dispatch(k, stays), i - 1, p); }
  }

  /** At some point of the run `p` has the CPU. */
  predicate GetsCpu(k: Kernel, es: seq<Event>, p: nat)
    requires Shape(k)
    decreases es
  {
    k.current == Proc(p) || (es != [] && GetsCpu(Step(k, es[0]), es[1..], p))
  }

  /**
   * Whoever arrives, sleeps, wakes or ends: a process with `i` others before it in
   * the ready queue runs within `i + 1` decisions, unless it is ended or sent to
   * the end of the queue itself.
   */
  lemma {:induction false} ServedInTurn(k: Kernel, es: seq<Event>, i: nat, p: nat)
    requires Inv(k) && p != k.idle && At(k, i, p) && ETerminate(p) !in es && ERequeue(p) !in es
    requires Decisions(k, es) >= i + 1
    ensures GetsCpu(k, es, p)
    decreases es
  {
    hide Distinct, Apart, Step;
    var r := Step(k, es[0]);
    assert es[0] in es;
    StepServes(k, es[0], i, p);
    InvStep(k, es[0]);
    if r.current != Proc(p) {
      var j :| 0 <= j <= (if Decides(k, es[0]) then i - 1 else i) && At(r, j, p);
      ServedInTurn(r, es[1..], j, p);
    }
  }

  /** The idle process gets the CPU exactly by a decision that finds nobody ready, the tick's sleepers included. */
  lemma IdleIsLast(k: Kernel, e: Event)
    requires Inv(k) && k.current != Proc(k.idle)
    ensures Step(k, e).current == Proc(k.idle) <==>
              Decides(k, e) && k.ready == [] && (e.ETick? ==> forall p :: p in k.sleep ==> k.ticks + 1 < k.d[p])
  {
    hide Distinct;
    if k.ready != [] { assert k.ready[0] in k.ready; }
    var woken := Woken(k.sleep, k.d, k.ticks + 1);
    if woken != [] { assert woken[0] in woken; }
    assert (k.ready + woken != []) ==> (k.ready + woken)[0] != k.idle;
  }

  // ----- where processes go ------------------------------------------------------------------

  /** `p` stands before `q`. */
  ghost predicate Before(xs: seq<nat>, p: nat, q: nat) {
    exists i, j :: 0 <= i < j < |xs| && xs[i] == p && xs[j] == q
  }

  /** Every element of `ys` is one of `xs`, and in the same order. */
  ghost predicate InOrder(xs: seq<nat>, ys: seq<nat>) {
    && (forall p :: p in ys ==> p in xs)
    && forall a, b :: 0 <= a < b < |ys| ==> Before(xs, ys[a], ys[b])
  }

  lemma BeforeCons(x: nat, xs: seq<nat>, p: nat, q: nat)
    requires Before(xs, p, q) || (p == x && q in xs)
    ensures Before([x] + xs, p, q)
  {
    var zs := [x] + xs;
    if Before(xs, p, q) {
      var i, j :| 0 <= i < j < |xs| && xs[i] == p && xs[j] == q;
      assert zs[i + 1] == p && zs[j + 1] == q;
    } else {
      var j :| 0 <= j < |xs| && xs[j] == q;
      assert zs[0] == p && zs[j + 1] == q;
    }
  }

  lemma InOrderCons(x: nat, xs: seq<nat>, ys: seq<nat>)
    requires InOrder(xs, ys)
    ensures InOrder([x] + xs, ys) && InOrder([x] + xs, [x] + ys)
  {
    hide Before;
    forall a, b | 0 <= a < b < |ys| ensures Before([x] + xs, ys[a], ys[b]) {
      BeforeCons(x, xs, ys[a], ys[b]);
    }
    var us := [x] + ys;
    forall a, b | 0 <= a < b < |us| ensures Before([x] + xs, us[a], us[b]) {
      assert us[b] == ys[b - 1] && ys[b - 1] in ys;
      if a > 0 { assert Before(xs, ys[a - 1], ys[b - 1]); }
      BeforeCons(x, xs, us[a], us[b]);
    }
  }

  /** The pass over the sleep queue splits it in two, both in order. */
  lemma {:induction false} PassSplits(xs: seq<nat>, d: seq<nat>, now: nat)
    requires Known(xs, d)
    ensures InOrder(xs, Asleep(xs, d, now)) && InOrder(xs, Woken(xs, d, now))
    ensures |Asleep(xs, d, now)| + |Woken(xs, d, now)| == |xs|
  {
    if xs != [] {
      PassSplits(xs[1..], d, now);
      assert xs == [xs[0]] + xs[1..];
      InOrderCons(xs[0], xs[1..], Asleep(xs[1..], d, now));
      InOrderCons(xs[0], xs[1..], Woken(xs[1..], d, now));
    }
  }

  /** A tick puts exactly the sleepers whose time has come behind the ready ones, in the order they went to sleep. */
  lemma TickWakesInOrder(k: Kernel) returns (woken: seq<nat>)
    requires Inv(k)
    ensures var r := Step(k, ETick(false));
            && r.ready == k.ready + woken && r.current == k.current && r.wait == k.wait && r.d == k.d
            && InOrder(k.sleep, woken) && InOrder(k.sleep, r.sleep) && |r.sleep| + |woken| == |k.sleep|
            && forall p :: p in k.sleep ==> if k.d[p] <= k.ticks + 1 then p in woken else p in r.sleep
  {
    PassSplits(k.sleep, k.d, k.ticks + 1);
    woken := Woken(k.sleep, k.d, k.ticks + 1);
  }

  /** A rescheduling tick is a plain tick followed by a decision. */
  lemma TickThenYield(k: Kernel)
    requires Inv(k)
    ensures Step(k, ETick(true)) == Step(Step(k, ETick(false)), EYield)
  {
  }

  /** `ys` is `xs` without one occurrence of `p`. */
  ghost predicate CutOut(xs: seq<nat>, p: nat, ys: seq<nat>) {
    exists i :: 0 <= i < |xs| && xs[i] == p && ys == xs[..i] + xs[i + 1..]
  }

  lemma WithoutCutsOut(xs: seq<nat>, p: nat)
    requires Distinct(xs)
    ensures if p in xs then CutOut(xs, p, Without(xs, p)) else Without(xs, p) == xs
  {
    if p in xs {
      var i :| 0 <= i < |xs| && xs[i] == p;
      WithoutAt(xs, i);
    } else {
      WithoutAbsent(xs, p);
    }
  }

  /** Arrivals, sleepers and blocked processes go to the end of their queue; one that moves leaves its place. */
  lemma GoesLast(k: Kernel, e: Event)
    requires Inv(k)
    ensures var r := Step(k, e);
            match e
            case EWake(p) =>
              if p in k.wait then r.ready == k.ready + [p] && CutOut(k.wait, p, r.wait) && r.current == k.current
              else r == k
            case ERequeue(p) =>
              if p in k.ready && p != k.idle
              then r.ready != [] && r.ready[|r.ready| - 1] == p && CutOut(k.ready, p, r.ready[..|r.ready| - 1])
              else r == k
            case ETerminate(p) =>
              && (if p in k.ready then CutOut(k.ready, p, r.ready) else r.ready == k.ready)
              && r.current == (if k.current == Proc(p) then Nobody else k.current)
            case ESleep(n) =>
              if Busy(k) then r.sleep == k.sleep + [k.current.p] && r.d == k.d[k.current.p := k.ticks + n]
              else r == k
            case EBlock => if Busy(k) then r.wait == k.wait + [k.current.p] && r.sleep == k.sleep else r == k
            case ECreate(p) =>
              p < |k.d| && Absent(k, p) && p != k.idle ==> r.ready == k.ready + [p] && r.used == k.used[p := 0]
            case _ => true
  {
    match e
    case EWake(p) => WithoutCutsOut(k.wait, p);
    case ERequeue(p) =>
      WithoutCutsOut(k.ready, p);
      assert (Without(k.ready, p) + [p])[..|Without(k.ready, p)|] == Without(k.ready, p);
    case ETerminate(p) => WithoutCutsOut(k.ready, p);
    case _ =>
  }

  // ----- who is charged the ticks ---------------------------------------------------------------

  /** The ticks of the run at which `p` has the CPU. */
  function TicksOf(k: Kernel, es: seq<Event>, p: nat): (n: nat)
    requires Shape(k)
    decreases es
  {
    if es == [] then 0
    else (if es[0].ETick? && k.current == Proc(p) then 1 else 0) + TicksOf(Step(k, es[0]), es[1..], p)
  }

  lemma StepUses(k: Kernel, e: Event, p: nat)
    requires Inv(k) && p < |k.d| && p != k.idle && e != ECreate(p)
    ensures var r := Step(k, e);
            |r.used| == |k.used| && r.used[p] == k.used[p] + if e.ETick? && k.current == Proc(p) then 1 else 0
  {
    hide Distinct, Apart;
  }

  /** A process is charged exactly the ticks at which it has the CPU. */
  lemma {:induction false} ChargedItsTicks(k: Kernel, es: seq<Event>, p: nat)
    requires Inv(k) && p < |k.d| && p != k.idle && ECreate(p) !in es
    ensures |Run(k, es).used| == |k.used| && Run(k, es).used[p] == k.used[p] + TicksOf(k, es, p)
    decreases es
  {
    hide Distinct, Apart, Step;
    if es != [] {
      assert es[0] in es;
      StepUses(k, es[0], p);
      InvStep(k, es[0]);
      ChargedItsTicks(Step(k, es[0]), es[1..], p);
    }
  }
}
