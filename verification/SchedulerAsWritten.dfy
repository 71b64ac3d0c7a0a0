/**
 * The scheduler's text, taken literally, on the linked process table.  A
 * dispatched process is dequeued and later unlinked once more, with the
 * insertion of the running process in between; a yielding process is inserted
 * before and after the dequeue; ending a process unlinks it even when it is not
 * queued.  Each theorem says exactly when the queues come out as intended.
 */
module SchedulerAsWritten {
  import opened Common
  import opened Scheduling
  import opened SchedulerInvariant
  import opened ProcessTable

  /** What the text works on. */
  datatype Text = Text(config: Config, ticks: nat, table: seq<Pcb>, hs: seq<ReadyQueue>, current: int)

  predicate PointsInto(t: seq<Pcb>, x: int) {
    NIL <= x < |t|
  }

  /** Every pointer is NIL or a table slot. */
  predicate Sound(x: Text) {
    && |x.table| == MAX_PROCESSES && |x.hs| == QUEUES && PointsInto(x.table, x.current)
    && (forall i :: 0 <= i < |x.table| ==> PointsInto(x.table, x.table[i].next) && PointsInto(x.table, x.table[i].prev))
    && (forall q :: 0 <= q < QUEUES ==> PointsInto(x.table, x.hs[q].head) && PointsInto(x.table, x.hs[q].tail))
  }

  function WithInfo(x: Text, i: nat, p: Proc): (r: Text)
    requires Sound(x) && i < |x.table|
    ensures Sound(r)
  {
    x.(table := x.table[i := x.table[i].(info := p)])
  }

  /** add_to_ready_queue, on any table. */
  function Insert(x: Text, i: nat): (r: Text)
    requires Sound(x) && i < |x.table|
    ensures Sound(r) && r.config == x.config && r.ticks == x.ticks && r.current == x.current
  {
    var q := QueueOf(x.config, x.table[i].info);
    var h := x.hs[q];
    var t := x.table[i := x.table[i].(next := NIL, prev := NIL)];
    if h.head == NIL then x.(table := t, hs := x.hs[q := ReadyQueue(i, i, h.count + 1)])
    else x.(table := SetPrev(SetNext(t, h.tail, i), i, h.tail), hs := x.hs[q := ReadyQueue(h.head, i, h.count + 1)])
  }

  /** The head of queue `q` leaves it; MLFQ hands it the slice of its level. */
  function Dequeue(x: Text, q: nat): (r: Text)
    requires Sound(x) && q < QUEUES && x.hs[q].count > 0 && x.hs[q].head != NIL
    ensures Sound(r)
  {
    var n: nat := x.hs[q].head;
    var t := if x.hs[q].head == x.hs[q].tail then x.table else SetPrev(x.table, x.table[n].next, NIL);
    var r := x.(table := t, hs := x.hs[q := TakeHeader(x.hs[q], x.table[n].next)]);
    if q < MAX_PRIORITY_LEVELS
    then WithInfo(r, n, t[n].info.(slice := LevelSlice(x.config, q), inQueue := 0))
    else r
  }

  /** remove_from_ready_queue, on any process. */
  function Remove(x: Text, i: nat): (r: Text)
    requires Sound(x) && i < |x.table|
    ensures Sound(r)
  {
    if x.config.kind.Mlfq? && x.table[i].info.priority >= MAX_PRIORITY_LEVELS then x
    else
      var q := QueueOf(x.config, x.table[i].info);
      x.(table := CutTable(x.table, i), hs := x.hs[q := CutHeader(x.hs[q], x.table[i].next, x.table[i].prev)])
  }

  /** The queue the three policies serve next, by its counter. */
  function NextQueue(x: Text): (q: Option<nat>)
    requires Sound(x)
    ensures q.Some? ==> q.value < QUEUES && x.hs[q.value].count > 0
  {
    if !x.config.kind.Mlfq? then if x.hs[READY].count > 0 then Some(READY) else None
    else if x.hs[0].count > 0 then Some(0)
    else if x.hs[1].count > 0 then Some(1)
    else if x.hs[2].count > 0 then Some(2)
    else if x.hs[3].count > 0 then Some(3)
    else None
  }

  /** The queue served next has a head. */
  predicate Headed(x: Text)
    requires Sound(x)
  {
    NextQueue(x).Some? ==> x.hs[NextQueue(x).value].head != NIL
  }

  /** Round robin inserts a running process that is already marked ready. */
  function Again(x: Text): (r: Text)
    requires Sound(x)
    ensures Sound(r) && r.current == x.current && r.config == x.config
  {
    if x.config.kind.RoundRobin? && x.current != NIL && x.table[x.current].info.phase == Ready
    then Insert(x, x.current) else x
  }

  /** The insertion of the running process in scheduler_schedule. */
  function Displace(x: Text): (r: Text)
    requires Sound(x)
    ensures Sound(r) && r.config == x.config
  {
    if x.current == NIL then x
    else Insert(WithInfo(x, x.current, x.table[x.current].info.(phase := Ready)), x.current)
  }

  /** The switch to `n`, with the second removal. */
  function SwitchText(x: Text, n: nat): (r: Text)
    requires Sound(x) && n < |x.table|
    ensures Sound(r)
  {
    var p := x.table[n].info.(phase := Running, timeStarted := x.ticks, sliceUsed := 0);
    Remove(WithInfo(x, n, p).(current := n), n)
  }

  /** scheduler_schedule */
  function ScheduleText(x: Text): (r: Text)
    requires Sound(x) && Headed(x)
    ensures Sound(r)
  {
    match NextQueue(x)
    case None => x
    case Some(q) =>
      var n: nat := x.hs[q].head;
      var x1 := Again(Dequeue(x, q));
      if n == x1.current then x1 else SwitchText(Displace(x1), n)
  }

  /** scheduler_yield */
  function YieldText(x: Text): (r: Text)
    requires Sound(x) && Headed(Displace(x))
    ensures Sound(r)
  {
    ScheduleText(Displace(x))
  }

  /**
   * The dispatch in scheduler_terminate_process, on any headers.  `None` is a write
   * through NULL: at 284 under MLFQ, or when a tail is left without a head.
   */
  function DispatchText(x: Text): (r: Option<Text>)
    requires Sound(x)
    ensures r.Some? ==> Sound(r.value)
  {
    if Headed(x) then Some(ScheduleText(x))
    else
      var q := NextQueue(x).value;
      if x.config.kind.Mlfq? || x.hs[q].tail != NIL then None
      else Some(x.(hs := x.hs[q := ReadyQueue(NIL, NIL, x.hs[q].count - 1)]))
  }

  /** The state and the removal of the process in slot `i`. */
  function EndText(x: Text, i: nat): (r: Text)
    requires Sound(x) && i < |x.table|
    ensures Sound(r) && r.current == x.current
  {
    Remove(WithInfo(x, i, x.table[i].info.(phase := Terminated)), i)
  }

  /** scheduler_terminate_process */
  function TerminateText(x: Text, pid: nat): (r: Option<Text>)
    requires Sound(x)
    ensures r.Some? ==> Sound(r.value)
  {
    match FirstMatch(Infos(x.table), pid, 0)
    case None => Some(x)
    case Some(i) =>
      var y := EndText(x, i);
      if y.current != NIL && y.table[y.current].info.pid == pid
      then DispatchText(y.(current := NIL))
      else Some(y)
  }

  /** The text's state represents a state of the step machine. */
  ghost predicate Represents(x: Text, s: Sched) {
    && Shape(s) && Sound(x) && x.config == s.config && x.ticks == s.ticks
    && Infos(x.table) == s.procs
    && s.current == (if x.current < 0 then None else Some(x.current))
    && Holds(x, s.queues)
  }

  /** The queues in the table are exactly `order`: right links, heads, tails and counts. */
  ghost predicate Holds(x: Text, order: seq<seq<nat>>) {
    AllLinked(x.table, x.hs, order)
  }

  // ----- the pieces ------------------------------------------------------------------

  lemma InfoKeeps(x: Text, order: seq<seq<nat>>, i: nat, p: Proc)
    requires Sound(x) && Holds(x, order) && i < |x.table|
    ensures Holds(WithInfo(x, i, p), order)
  {
    var t' := WithInfo(x, i, p).table;
    forall q | 0 <= q < QUEUES ensures Linked(t', x.hs[q], order[q], NIL) {
      LinkedFrame(x.table, t', x.hs[q], order[q], NIL);
    }
  }

  /** A queue has a head, and a count, exactly when it has an element. */
  lemma QueueFacts(x: Text, order: seq<seq<nat>>, q: nat)
    requires Sound(x) && Holds(x, order) && q < QUEUES
    ensures x.hs[q].count == |order[q]|
    ensures order[q] == [] ==> x.hs[q].head == NIL && x.hs[q].tail == NIL
    ensures order[q] != [] ==> x.hs[q].head == order[q][0] && x.hs[q].tail == order[q][|order[q]| - 1]
    ensures order[q] != [] ==>
              var n := order[q][0];
              n < |x.table| && x.table[n].prev == NIL && x.table[n].next == Succ(order[q], 0, NIL)
  {
    assert Linked(x.table, x.hs[q], order[q], NIL);
    if order[q] != [] { assert x.table[order[q][0]].prev == Pred(order[q], 0); }
  }

  lemma AllHeaded(x: Text, order: seq<seq<nat>>)
    requires Sound(x) && Holds(x, order)
    ensures Headed(x)
  {
    if NextQueue(x).Some? { QueueFacts(x, order, NextQueue(x).value); }
  }

  lemma ServesSame(x: Text, s: Sched)
    requires Shape(s) && Sound(x) && x.config == s.config && Holds(x, s.queues)
    ensures NextQueue(x) == Served(s) && Headed(x)
  {
    AllHeaded(x, s.queues);
    QueueFacts(x, s.queues, 0);
    QueueFacts(x, s.queues, 1);
    QueueFacts(x, s.queues, 2);
    QueueFacts(x, s.queues, 3);
    QueueFacts(x, s.queues, READY);
  }

  /** Inserting an unqueued process is the intended insertion; it leaves other unqueued processes alone. */
  lemma InsertKeeps(x: Text, order: seq<seq<nat>>, i: nat)
    requires Sound(x) && Holds(x, order) && i < |x.table| && InNone(order, i)
    ensures var q, r := QueueOf(x.config, x.table[i].info), Insert(x, i);
            && Holds(r, order[q := order[q] + [i]])
            && forall n :: 0 <= n < |x.table| && n != i && InNone(order, n) ==> r.table[n] == x.table[n]
  {
    hide Linked;
    var q := QueueOf(x.config, x.table[i].info);
    AppendKeeps(x.table, x.hs, order, q, i);
    QueueFacts(x, order, q);
    assert Insert(x, i).table == AppendTable(x.table, x.hs[q], i);
    forall n | 0 <= n < |x.table| && n != i && InNone(order, n) ensures Insert(x, i).table[n] == x.table[n] {
      assert n !in order[q];
      AppendElsewhere(x.table, x.hs[q], i, n);
    }
  }

  /** The dequeue takes the head out and leaves its own links behind. */
  lemma DequeueKeeps(x: Text, order: seq<seq<nat>>, q: nat)
    requires Sound(x) && Holds(x, order) && q < QUEUES && order[q] != []
    ensures x.hs[q].count > 0 && x.hs[q].head == order[q][0] < |x.table|
    ensures var n, r := order[q][0], Dequeue(x, q);
            && Holds(r, order[q := order[q][1..]]) && InNone(order[q := order[q][1..]], n)
            && r.table[n].prev == NIL && r.table[n].next == Succ(order[q], 0, NIL)
            && r.current == x.current && r.config == x.config && r.ticks == x.ticks
  {
    var n, o := order[q][0], order[q := order[q][1..]];
    QueueFacts(x, order, q);
    TakeKeeps(x.table, x.hs, order, q);
    var t := SetPrev(x.table, x.table[n].next, NIL);
    var y := x.(table := t, hs := x.hs[q := TakeHeader(x.hs[q], x.table[n].next)]);
    HeadLeaves(x, order, q);
    if q < MAX_PRIORITY_LEVELS {
      InfoKeeps(y, o, n, t[n].info.(slice := LevelSlice(x.config, q), inQueue := 0));
    }
  }

  lemma HeadLeaves(x: Text, order: seq<seq<nat>>, q: nat)
    requires Sound(x) && Holds(x, order) && q < QUEUES && order[q] != []
    ensures InNone(order[q := order[q][1..]], order[q][0])
    ensures x.table[order[q][0]].next != order[q][0]
  {
    assert Linked(x.table, x.hs[q], order[q], NIL);
    assert x.table[order[q][0]].next == Succ(order[q], 0, NIL);
    var o := order[q := order[q][1..]];
    forall g | 0 <= g < QUEUES ensures order[q][0] !in o[g] {
      if g != q { assert NoCommon(order[q], order[g]); }
    }
  }

  /**
   * The second removal: a process that is in no queue but still has its old
   * `next` link.  It does no harm exactly when it had no successor and its queue
   * is empty by now.
   */
  lemma StaleRemoval(x: Text, order: seq<seq<nat>>, n: nat)
    requires Sound(x) && Holds(x, order) && n < |x.table| && InNone(order, n)
    requires x.config.kind.Mlfq? ==> x.table[n].info.priority < MAX_PRIORITY_LEVELS
    requires x.table[n].prev == NIL
    requires var q := QueueOf(x.config, x.table[n].info);
             x.table[n].next == NIL || (order[q] != [] && x.table[n].next == order[q][0])
    ensures var q := QueueOf(x.config, x.table[n].info);
            Holds(Remove(x, n), order) <==> order[q] == []
  {
    var q, r := QueueOf(x.config, x.table[n].info), Remove(x, n);
    QueueFacts(x, order, q);
    if order[q] == [] {
      forall g | 0 <= g < QUEUES ensures Linked(r.table, r.hs[g], order[g], NIL) {
        assert Linked(x.table, x.hs[g], order[g], NIL) && n !in order[g];
        LinkedFrame(x.table, r.table, x.hs[g], order[g], NIL);
      }
    } else {
      assert r.hs[q].count != |order[q]|;
      assert !Linked(r.table, r.hs[q], order[q], NIL);
    }
  }

  // ----- scheduler_schedule ------------------------------------------------------------

  /** Nobody is dispatched; or the dispatched process was alone in its queue and the running one goes elsewhere. */
  predicate HarmlessDispatch(s: Sched)
    requires Shape(s)
  {
    match Served(s)
    case None => true
    case Some(q) =>
      |s.queues[q]| == 1 && (s.current.Some? ==> QueueOf(s.config, s.procs[s.current.value]) != q)
  }

  /** The running process goes behind its queue, as intended. */
  lemma DisplaceKeeps(x: Text, order: seq<seq<nat>>)
    requires Sound(x) && Holds(x, order) && (x.current != NIL ==> InNone(order, x.current))
    ensures var q, r := if x.current == NIL then 0 else QueueOf(x.config, x.table[x.current].info), Displace(x);
            && Holds(r, if x.current == NIL then order else order[q := order[q] + [x.current]])
            && r.current == x.current && r.ticks == x.ticks
            && forall n :: 0 <= n < |x.table| && n != x.current && InNone(order, n) ==> r.table[n] == x.table[n]
  {
    hide AllLinked, Insert;
    if x.current != NIL {
      var p := x.table[x.current].info.(phase := Ready);
      InfoKeeps(x, order, x.current, p);
      InsertKeeps(WithInfo(x, x.current, p), order, x.current);
    }
  }

  /** The queues after dequeuing from `q` and inserting the running process. */
  function Intended(s: Sched, q: nat): (order: seq<seq<nat>>)
    requires Shape(s) && q < QUEUES && s.queues[q] != []
    ensures |order| == QUEUES
  {
    var o := s.queues[q := s.queues[q][1..]];
    if s.current.None? then o
    else
      var g := QueueOf(s.config, s.procs[s.current.value]);
      o[g := o[g] + [s.current.value]]
  }

  lemma IntendedIsScheduled(s: Sched)
    requires Inv(s) && Served(s).Some?
    ensures Schedule(s).queues == Intended(s, Served(s).value)
  {
    InvPlaced(s);
    var q := Served(s).value;
    var n := s.queues[q][0];
    assert n in s.queues[q];
  }

  /** The head of a queue is a ready process of that level. */
  lemma HeadPlaced(s: Sched, q: nat)
    requires Inv(s) && q < QUEUES && s.queues[q] != []
    ensures var n := s.queues[q][0];
            QueueOf(s.config, s.procs[n]) == q && s.procs[n].priority < MAX_PRIORITY_LEVELS && s.current != Some(n)
  {
    assert QueueOk(s, q, {});
    assert ProcOk(s, s.queues[q][0]);
  }

  /** Up to the second removal the text does what is intended. */
  lemma BeforeRemoval(x: Text, s: Sched)
    requires Inv(s) && Represents(x, s) && Served(s).Some?
    ensures NextQueue(x) == Served(s) && Headed(x)
    ensures var q := Served(s).value;
            var n, y := s.queues[q][0], Displace(Again(Dequeue(x, q)));
            && x.hs[q].head == n != x.current && Again(Dequeue(x, q)).current == x.current
            && y.config == s.config && Holds(y, Intended(s, q)) && InNone(Intended(s, q), n)
            && QueueOf(y.config, y.table[n].info) == q && y.table[n].info.priority < MAX_PRIORITY_LEVELS
            && y.table[n].prev == NIL && y.table[n].next == Succ(s.queues[q], 0, NIL)
  {
    hide AllLinked, Inv, Insert, Headed;
    ServesSame(x, s);
    InvPlaced(s);
    var q := Served(s).value;
    var n, o := s.queues[q][0], s.queues[q := s.queues[q][1..]];
    HeadPlaced(s, q);
    DequeueKeeps(x, s.queues, q);
    var y := Dequeue(x, q);
    assert Again(y) == y;
    DisplaceKeeps(y, o);
  }

  /**
   * scheduler_schedule as written leaves the intended queues exactly when nobody is
   * dispatched, or the dispatched process was alone in its queue and no running
   * process is put behind it.  With one ready queue that means: never while a
   * process runs.
   */
  lemma DispatchAsWritten(x: Text, s: Sched)
    requires Inv(s) && Represents(x, s)
    ensures Headed(x)
    ensures Holds(ScheduleText(x), Schedule(s).queues) <==> HarmlessDispatch(s)
  {
    hide AllLinked, Inv, Remove, Displace, Dequeue, Again;
    ServesSame(x, s);
    if Served(s).Some? {
      var q := Served(s).value;
      var n := s.queues[q][0];
      BeforeRemoval(x, s);
      IntendedIsScheduled(s);
      var y := Displace(Again(Dequeue(x, q)));
      var p := y.table[n].info.(phase := Running, timeStarted := y.ticks, sliceUsed := 0);
      InfoKeeps(y, Intended(s, q), n, p);
      StaleRemoval(WithInfo(y, n, p).(current := n), Intended(s, q), n);
    }
  }

  /** A running process put behind the only entry of its queue ends marked ready and in no queue. */
  lemma RunningProcessLost(x: Text, s: Sched)
    requires Inv(s) && Represents(x, s) && s.current.Some?
    requires Served(s) == Some(QueueOf(s.config, s.procs[s.current.value]))
    requires |s.queues[QueueOf(s.config, s.procs[s.current.value])]| == 1
    ensures Headed(x)
    ensures var q, r := QueueOf(s.config, s.procs[s.current.value]), ScheduleText(x);
            && r.hs[q] == ReadyQueue(NIL, NIL, 0)
            && r.table[x.current].info.phase == Ready && r.current == s.queues[q][0] != x.current
  {
    hide AllLinked, Inv, Insert, Headed, Dequeue;
    BeforeRemoval(x, s);
    var q := Served(s).value;
    var y := Displace(Again(Dequeue(x, q)));
    QueueFacts(y, Intended(s, q), q);
    assert Intended(s, q)[q] == [x.current];
    DisplacedReady(Again(Dequeue(x, q)));
  }

  lemma DisplacedReady(x: Text)
    requires Sound(x) && x.current != NIL
    ensures Displace(x).table[x.current].info.phase == Ready
  {
  }

  // ----- scheduler_yield -----------------------------------------------------------------

  /** Nobody is queued at the level of the running process or before it. */
  predicate NobodyAhead(s: Sched)
    requires Shape(s) && s.current.Some?
  {
    var g := QueueOf(s.config, s.procs[s.current.value]);
    s.queues[g] == [] && (s.config.kind.Mlfq? ==> forall q :: 0 <= q < g ==> s.queues[q] == [])
  }

  /** `c` closes a nonempty queue `g`. */
  predicate Closes(x: Text, g: nat, c: nat)
    requires Sound(x) && g < QUEUES
  {
    x.hs[g].head != NIL && x.hs[g].tail == c
  }

  /** Inserting the last process of a queue again makes it its own successor. */
  lemma InsertTies(x: Text, c: nat)
    requires Sound(x) && c < |x.table| && Closes(x, QueueOf(x.config, x.table[c].info), c)
    ensures var g, r := QueueOf(x.config, x.table[c].info), Insert(x, c);
            && Closes(r, g, c) && r.table[c].next == c && r.table[c].info == x.table[c].info
            && forall n :: 0 <= n < |x.table| && n != c ==> r.table[n] == x.table[n]
  {
  }

  /** The removal of another process does not untie it, and then the queues are no lists. */
  lemma TiedForGood(x: Text, n: nat, g: nat, c: nat)
    requires Sound(x) && n < |x.table| && c < |x.table| && n != c && g < QUEUES
    requires Closes(x, g, c) && x.table[c].next == c && x.table[n].prev == NIL
    requires QueueOf(x.config, x.table[n].info) == g ==> x.table[n].next != NIL
    ensures forall o :: !Holds(Remove(x, n), o)
  {
    var r := Remove(x, n);
    assert r.hs[g].tail == c && r.table[c].next == c;
    forall o ensures !Holds(r, o) {
      if Holds(r, o) {
        assert Linked(r.table, r.hs[g], o[g], NIL);
        TailEnds(r.table, r.hs[g], o[g]);
      }
    }
  }

  lemma TailEnds(t: seq<Pcb>, q: ReadyQueue, xs: seq<nat>)
    requires Linked(t, q, xs, NIL) && 0 <= q.tail < |t|
    ensures t[q.tail].next == NIL
  {
    assert t[xs[|xs| - 1]].next == Succ(xs, |xs| - 1, NIL);
  }

  /** After the first insertion the yielding process ends its queue, and somebody is served. */
  lemma AfterFirstInsertion(x: Text, s: Sched)
    requires Inv(s) && Represents(x, s) && s.current.Some?
    ensures Headed(Displace(x)) && NextQueue(Displace(x)) == Served(Release(s)) != None
    ensures Holds(Displace(x), Release(s).queues) && Displace(x).current == x.current && Displace(x).config == x.config
    ensures var c := s.current.value;
            var g := QueueOf(s.config, s.procs[c]);
            && Release(s).queues == s.queues[g := s.queues[g] + [c]]
            && (NobodyAhead(s) <==> Release(s).queues[Served(Release(s)).value][0] == c)
            && (NobodyAhead(s) ==> Served(Release(s)) == Some(g))
  {
    hide AllLinked, Inv, Insert, Headed;
    InvPlaced(s);
    DisplaceKeeps(x, s.queues);
    ServesSame(Displace(x), Release(s));
    var q := Served(Release(s)).value;
    var g := QueueOf(s.config, s.procs[s.current.value]);
    assert q != g ==> Release(s).queues[q][0] in s.queues[q];
    assert q == g && s.queues[g] != [] ==> Release(s).queues[q][0] in s.queues[q];
  }

  /** Whoever is dispatched instead of the yielding process is a ready process of the served level. */
  lemma OtherPlaced(s: Sched, q: nat)
    requires Inv(s) && s.current.Some? && q < QUEUES && Release(s).queues[q] != []
    requires Release(s).queues[q][0] != s.current.value
    ensures var n := Release(s).queues[q][0];
            n in s.queues[q] && n < MAX_PROCESSES && QueueOf(s.config, s.procs[n]) == q
    ensures QueueOf(s.config, s.procs[s.current.value]) == q ==> |Release(s).queues[q]| >= 2
  {
    var n := Release(s).queues[q][0];
    assert QueueOk(s, q, {});
    assert n in s.queues[q];
  }

  lemma YieldAlone(x: Text, s: Sched)
    requires Inv(s) && Represents(x, s) && s.current.Some? && NobodyAhead(s)
    ensures Headed(Displace(x)) && YieldText(x).current == x.current
    ensures Yield(s).queues == s.queues
    ensures Holds(YieldText(x), if s.config.kind.RoundRobin? then s.queues[READY := [x.current]] else s.queues)
  {
    hide AllLinked, Inv, Headed;
    InvPlaced(s);
    AfterFirstInsertion(x, s);
    var y, o := Displace(x), Release(s).queues;
    var q := Served(Release(s)).value;
    DequeueKeeps(y, o, q);
    assert o[q] == [x.current] && o[q][1..] == s.queues[q];
    assert o[q := o[q][1..]] == s.queues;
    DisplacedReady(x);
    if s.config.kind.RoundRobin? {
      InsertKeeps(Dequeue(y, q), s.queues, x.current);
    }
  }

  /** From the dequeue on: `c` yields while `n` is dispatched. */
  lemma TieFrom(y: Text, n: nat, g: nat, c: nat)
    requires Sound(y) && n < |y.table| && c < |y.table| && n != c && y.current == c
    requires g == QueueOf(y.config, y.table[c].info) && Closes(y, g, c) && y.table[n].prev == NIL
    requires QueueOf(y.config, y.table[n].info) == g ==> y.table[n].next != NIL
    ensures forall o :: !Holds(SwitchText(Displace(Again(y)), n), o)
  {
    hide Insert, Remove, Closes, Holds;
    if y.config.kind.RoundRobin? { InsertTies(y, c); }
    var y1 := Again(y);
    var y2 := WithInfo(y1, c, y1.table[c].info.(phase := Ready));
    SameEnds(y1, y2, g, c);
    InsertTies(y2, c);
    var y3 := Displace(y1);
    var p := y3.table[n].info.(phase := Running, timeStarted := y3.ticks, sliceUsed := 0);
    var y4 := WithInfo(y3, n, p).(current := n);
    SameEnds(y3, y4, g, c);
    TiedForGood(y4, n, g, c);
  }

  lemma SameEnds(x: Text, y: Text, g: nat, c: nat)
    requires Sound(x) && Sound(y) && y.hs == x.hs && g < QUEUES && Closes(x, g, c)
    ensures Closes(y, g, c)
  {
  }

  lemma YieldTies(x: Text, s: Sched)
    requires Inv(s) && Represents(x, s) && s.current.Some? && !NobodyAhead(s)
    ensures Headed(Displace(x)) && forall o :: !Holds(YieldText(x), o)
  {
    hide AllLinked, Inv, Displace, Again, SwitchText, Infos, Holds, Headed;
    AfterFirstInsertion(x, s);
    var c: nat := x.current;
    var g := QueueOf(s.config, s.procs[c]);
    var y, o := Displace(x), Release(s).queues;
    var q := Served(Release(s)).value;
    var n := o[q][0];
    OtherPlaced(s, q);
    DequeueKeeps(y, o, q);
    DisplacedOnly(x, c);
    QueueFacts(Dequeue(y, q), o[q := o[q][1..]], g);
    TieFrom(Dequeue(y, q), n, g, c);
  }

  /** Displacing changes no process but the running one, and that one only in its phase and links. */
  lemma DisplacedOnly(x: Text, c: nat)
    requires Sound(x) && x.current == c
    ensures forall n :: 0 <= n < |x.table| ==>
              QueueOf(x.config, Displace(x).table[n].info) == QueueOf(x.config, x.table[n].info)
  {
  }

  /**
   * scheduler_yield as written leaves well-linked queues exactly when the yielding
   * process is dispatched again itself: nobody waits at its level or before it.
   * They are then the intended ones, except that round robin leaves the running
   * process queued.
   */
  lemma YieldAsWritten(x: Text, s: Sched)
    requires Inv(s) && Represents(x, s) && s.current.Some?
    ensures Headed(Displace(x))
    ensures (exists o :: Holds(YieldText(x), o)) <==> NobodyAhead(s)
    ensures Holds(YieldText(x), Yield(s).queues) <==> NobodyAhead(s) && !s.config.kind.RoundRobin?
    ensures NobodyAhead(s) && s.config.kind.RoundRobin? ==>
              Holds(YieldText(x), s.queues[READY := [x.current]]) && YieldText(x).current == x.current
  {
    hide AllLinked, YieldText, Displace;
    if NobodyAhead(s) {
      YieldAlone(x, s);
      if s.config.kind.RoundRobin? {
        var r := YieldText(x);
        QueueFacts(r, s.queues[READY := [x.current]], READY);
        if Holds(r, s.queues) { QueueFacts(r, s.queues, READY); }
      }
    } else {
      YieldTies(x, s);
    }
  }

  // ----- scheduler_terminate_process ---------------------------------------------------

  /**
   * Ending a process that is not queued, the running one or an unused slot: the
   * removal empties the header of its queue, which does no harm exactly when that
   * queue was empty.
   */
  lemma EndUnqueuedAsWritten(x: Text, order: seq<seq<nat>>, i: nat)
    requires Sound(x) && Holds(x, order) && i < |x.table| && InNone(order, i)
    requires x.config.kind.Mlfq? ==> x.table[i].info.priority < MAX_PRIORITY_LEVELS
    requires x.table[i].next == NIL && x.table[i].prev == NIL
    ensures var q, r := QueueOf(x.config, x.table[i].info), Remove(x, i);
            && (Holds(r, order) <==> order[q] == [])
            && r.hs[q].head == NIL && r.hs[q].tail == NIL
  {
    StaleRemoval(x, order, i);
  }

  /** Processes in no queue have no links, and unused slots are zeroed. */
  ghost predicate Clean(x: Text, s: Sched)
    requires Sound(x)
  {
    forall i :: 0 <= i < |x.table| && InNone(s.queues, i) ==>
      x.table[i].next == NIL && x.table[i].prev == NIL && (x.table[i].info.pid == 0 ==> x.table[i].info.priority == 0)
  }

  /** Queues and running process are those of the step machine. */
  ghost predicate AsIntended(r: Option<Text>, t: Sched) {
    && r.Some? && Holds(r.value, t.queues)
    && t.current == (if r.value.current < 0 then None else Some(r.value.current))
  }

  /**
   * Nobody ends, a queued process ends, or one whose queue is empty; and if it was
   * the running one, the dispatch that follows is harmless.
   */
  predicate HarmlessEnd(s: Sched, pid: nat)
    requires Shape(s)
  {
    match FirstMatch(s.procs, pid, 0)
    case None => true
    case Some(i) =>
      || s.procs[i].phase == Ready
      || (s.queues[QueueOf(s.config, s.procs[i])] == []
          && (s.current == Some(i) ==> HarmlessDispatch(s.(current := None))))
  }

  /** The running process ends, two or more wait at its level and nobody before it. */
  predicate LosesHead(s: Sched, pid: nat)
    requires Shape(s)
  {
    match FirstMatch(s.procs, pid, 0)
    case None => false
    case Some(i) =>
      var g := QueueOf(s.config, s.procs[i]);
      && s.current == Some(i) && |s.queues[g]| >= 2
      && (s.config.kind.Mlfq? ==> forall q :: 0 <= q < g ==> s.queues[q] == [])
  }

  lemma OnlyOnePid(s: Sched, pid: nat, i: nat)
    requires Inv(s) && FirstMatch(s.procs, pid, 0) == Some(i)
    ensures s.procs[i].phase == Ready || s.procs[i].phase == New || s.current == Some(i)
    ensures s.procs[i].phase == New ==> pid == 0
    ensures s.current.Some? && s.procs[s.current.value].pid == pid ==> s.current == Some(i)
    ensures s.current == Some(i) ==> s.procs[i].phase == Running && s.procs[i].pid != 0
    ensures s.procs[i].phase == Ready ==> s.current != Some(i)
    ensures s.procs[i].pid != 0 ==> s.procs[i].priority < MAX_PRIORITY_LEVELS
  {
    assert ProcOk(s, i);
    if s.current.Some? { assert ProcOk(s, s.current.value); }
  }

  /** A queued process ends as intended. */
  lemma EndQueued(x: Text, s: Sched, pid: nat, i: nat)
    requires Inv(s) && Represents(x, s) && FirstMatch(s.procs, pid, 0) == Some(i) && s.procs[i].phase == Ready
    ensures TerminateText(x, pid) != None && AsIntended(TerminateText(x, pid), Terminate(s, pid))
  {
    hide AllLinked, Inv;
    OnlyOnePid(s, pid, i);
    InvPlaced(s);
    var g := QueueOf(s.config, s.procs[i]);
    var y := WithInfo(x, i, x.table[i].info.(phase := Terminated));
    InfoKeeps(x, s.queues, i, x.table[i].info.(phase := Terminated));
    CutKeeps(y.table, y.hs, s.queues, g, i);
    assert EndText(x, i).table[i].info.pid == pid;
    KeepsPids(x, i);
  }

  lemma KeepsPids(x: Text, i: nat)
    requires Sound(x) && i < |x.table|
    ensures forall j :: 0 <= j < |x.table| ==> EndText(x, i).table[j].info.pid == x.table[j].info.pid
    ensures Infos(EndText(x, i).table) == Infos(x.table)[i := x.table[i].info.(phase := Terminated)]
  {
  }

  /** What the removal of an unqueued process leaves. */
  lemma EndUnqueued(x: Text, s: Sched, i: nat)
    requires Inv(s) && Represents(x, s) && Clean(x, s) && i < MAX_PROCESSES && InNone(s.queues, i)
    requires s.procs[i].pid != 0 ==> s.procs[i].priority < MAX_PRIORITY_LEVELS
    ensures var g, y := QueueOf(s.config, s.procs[i]), EndText(x, i);
            && (Holds(y, s.queues) <==> s.queues[g] == [])
            && y.hs == x.hs[g := ReadyQueue(NIL, NIL, if s.queues[g] == [] then 0 else |s.queues[g]| - 1)]
            && y.config == x.config && y.ticks == x.ticks
  {
    hide AllLinked, Inv;
    var p := x.table[i].info.(phase := Terminated);
    InfoKeeps(x, s.queues, i, p);
    EndUnqueuedAsWritten(WithInfo(x, i, p), s.queues, i);
    QueueFacts(x, s.queues, QueueOf(s.config, s.procs[i]));
  }

  /** The state after the removal of the running process from an empty queue. */
  lemma EndRepresents(x: Text, s: Sched, i: nat)
    requires Inv(s) && Represents(x, s) && Clean(x, s) && s.current == Some(i) && s.procs[i].phase == Running
    requires s.procs[i].pid != 0 && s.procs[i].priority < MAX_PRIORITY_LEVELS
    requires s.queues[QueueOf(s.config, s.procs[i])] == []
    ensures var t := Retire(s, i).(current := None);
            && Inv(t) && t.queues == s.queues && Represents(EndText(x, i).(current := NIL), t)
            && (HarmlessDispatch(t) <==> HarmlessDispatch(s.(current := None)))
  {
    hide AllLinked, Consistent;
    InvPlaced(s);
    CoreRetire(s, i);
    WithoutAbsent(s.queues[QueueOf(s.config, s.procs[i])], i);
    EndUnqueued(x, s, i);
    KeepsPids(x, i);
  }

  /** The running process ends and its queue was empty: what follows is an ordinary dispatch. */
  lemma EndAlone(x: Text, s: Sched, pid: nat, i: nat)
    requires Inv(s) && Represents(x, s) && Clean(x, s) && FirstMatch(s.procs, pid, 0) == Some(i)
    requires s.current == Some(i) && s.queues[QueueOf(s.config, s.procs[i])] == []
    ensures TerminateText(x, pid) != None
    ensures AsIntended(TerminateText(x, pid), Terminate(s, pid)) <==> HarmlessEnd(s, pid)
  {
    hide AllLinked, Inv, ScheduleText, Headed, HarmlessDispatch;
    OnlyOnePid(s, pid, i);
    var t := Retire(s, i).(current := None);
    var y := EndText(x, i).(current := NIL);
    EndRepresents(x, s, i);
    KeepsPids(x, i);
    DispatchAsWritten(y, t);
    DispatchCurrent(y, t);
    assert DispatchText(y) == Some(ScheduleText(y));
    assert Terminate(s, pid) == Schedule(t);
  }

  /** With nobody running both dispatch the head of the served queue. */
  lemma DispatchCurrent(x: Text, s: Sched)
    requires Inv(s) && Represents(x, s) && s.current == None
    ensures Headed(x)
    ensures Schedule(s).current == (if ScheduleText(x).current < 0 then None else Some(ScheduleText(x).current))
  {
    hide AllLinked, Inv;
    ServesSame(x, s);
    if Served(s).Some? { BeforeRemoval(x, s); }
  }

  /** Dispatching from one queue leaves the headers of the others. */
  lemma DispatchElsewhere(x: Text, q: nat, g: nat, n: nat)
    requires Sound(x) && Headed(x) && x.current == NIL && NextQueue(x) == Some(q) && g < QUEUES && g != q
    requires x.hs[q].head == n && QueueOf(x.config, x.table[n].info) == q
    ensures ScheduleText(x).hs[g] == x.hs[g] && ScheduleText(x).current == n
  {
  }

  /** The first nonempty queue by length, when queue `g` has lost its head and one count. */
  lemma ServedAfterLoss(x: Text, y: Text, s: Sched, g: nat)
    requires Shape(s) && Sound(x) && Sound(y) && x.config == y.config == s.config && Holds(x, s.queues)
    requires g < QUEUES && s.queues[g] != [] && (s.config.kind.Mlfq? <==> g < READY)
    requires y.hs == x.hs[g := ReadyQueue(NIL, NIL, |s.queues[g]| - 1)]
    ensures Served(s).Some?
    ensures var q := Served(s).value;
            && (q != g ==> NextQueue(y) == Some(q))
            && (q == g && |s.queues[g]| >= 2 ==> NextQueue(y) == Some(g))
            && (q == g && |s.queues[g]| == 1 ==>
                  NextQueue(y) == None || (NextQueue(y).value != g && s.queues[NextQueue(y).value] != []))
            && (q == g <==> (s.config.kind.Mlfq? ==> forall j :: 0 <= j < g ==> s.queues[j] == []))
    ensures forall q :: 0 <= q < QUEUES && q != g && s.queues[q] != [] ==> y.hs[q].head == s.queues[q][0]
  {
    hide AllLinked;
    QueueFacts(x, s.queues, 0);
    QueueFacts(x, s.queues, 1);
    QueueFacts(x, s.queues, 2);
    QueueFacts(x, s.queues, 3);
    QueueFacts(x, s.queues, READY);
    assert s.config.kind.Mlfq? ==> g in {0, 1, 2, 3};
  }

  /** The running process of level `g` has been taken out while others wait there: the header has lost its head. */
  ghost predicate Beheaded(x: Text, y: Text, s: Sched, g: nat) {
    && Inv(s) && Represents(x, s) && Sound(y) && y.config == x.config && y.current == NIL
    && s.current.Some? && y.table == EndText(x, s.current.value).table
    && g < QUEUES && s.queues[g] != [] && (s.config.kind.Mlfq? <==> g < READY)
    && y.hs == x.hs[g := ReadyQueue(NIL, NIL, |s.queues[g]| - 1)]
  }

  /** A dispatch after that runs nobody or the head of another queue. */
  lemma BeheadedServes(x: Text, y: Text, s: Sched, g: nat)
    requires Beheaded(x, y, s, g) && !(Served(s) == Some(g) && |s.queues[g]| >= 2)
    ensures Headed(y) && ScheduleText(y).hs[g].head == NIL
    ensures ScheduleText(y).current == NIL || ScheduleText(y).current != s.queues[g][0]
    ensures DispatchText(y) == Some(ScheduleText(y))
  {
    hide AllLinked, Inv, ScheduleText, EndText;
    ServedAfterLoss(x, y, s, g);
    if NextQueue(y).Some? {
      var q := NextQueue(y).value;
      OtherHead(x, y, s, s.current.value, q);
      DispatchElsewhere(y, q, g, s.queues[q][0]);
      HeadsDiffer(x, s, q, g);
    } else {
      StaysIdle(y);
    }
  }

  lemma BeheadedMeets(x: Text, y: Text, s: Sched, g: nat)
    requires Beheaded(x, y, s, g) && Served(s) == Some(g) && |s.queues[g]| >= 2
    ensures DispatchText(y) ==
            if s.config.kind.Mlfq? then None
            else Some(y.(hs := y.hs[g := ReadyQueue(NIL, NIL, |s.queues[g]| - 2)]))
  {
    hide AllLinked, Inv, ScheduleText, EndText;
    ServedAfterLoss(x, y, s, g);
  }

  /** A headless queue, or another process running, is not what is intended. */
  lemma NotIntended(r: Text, s: Sched, t: Sched, g: nat)
    requires Inv(s) && Shape(t) && t.queues == s.queues && t.current == None && Served(t) == Served(s)
    requires Sound(r) && g < QUEUES && s.queues[g] != [] && Served(s).Some?
    requires r.hs[g].head == NIL && (r.current == NIL || r.current != s.queues[g][0])
    ensures !AsIntended(Some(r), Schedule(t))
  {
    hide AllLinked, Inv;
    IntendedAfterEnd(s, t, g);
    if AsIntended(Some(r), Schedule(t)) { QueueFacts(r, Schedule(t).queues, g); }
  }

  lemma EndBeheads(x: Text, s: Sched, pid: nat, i: nat)
    requires Inv(s) && Represents(x, s) && Clean(x, s) && FirstMatch(s.procs, pid, 0) == Some(i)
    requires s.current == Some(i) && s.queues[QueueOf(s.config, s.procs[i])] != []
    ensures var t, y := Retire(s, i).(current := None), EndText(x, i).(current := NIL);
            && t.queues == s.queues && Served(t) == Served(s) && Terminate(s, pid) == Schedule(t)
            && TerminateText(x, pid) == DispatchText(y) && Beheaded(x, y, s, QueueOf(s.config, s.procs[i]))
  {
    hide AllLinked, Inv, DispatchText, Schedule;
    OnlyOnePid(s, pid, i);
    InvPlaced(s);
    KeepsPids(x, i);
    EndUnqueued(x, s, i);
    WithoutAbsent(s.queues[QueueOf(s.config, s.procs[i])], i);
  }

  /** The running process ends while others wait at its level: never as intended. */
  lemma EndBeforeOthers(x: Text, s: Sched, pid: nat, i: nat)
    requires Inv(s) && Represents(x, s) && Clean(x, s) && FirstMatch(s.procs, pid, 0) == Some(i)
    requires s.current == Some(i) && s.queues[QueueOf(s.config, s.procs[i])] != []
    ensures !AsIntended(TerminateText(x, pid), Terminate(s, pid)) && !HarmlessEnd(s, pid)
    ensures TerminateText(x, pid) == None <==> s.config.kind.Mlfq? && LosesHead(s, pid)
    ensures !s.config.kind.Mlfq? && LosesHead(s, pid) ==>
              var r := TerminateText(x, pid).value;
              r.current == NIL && r.hs[READY] == ReadyQueue(NIL, NIL, |s.queues[READY]| - 2)
  {
    hide AllLinked, Inv, ScheduleText, DispatchText, TerminateText, Terminate, EndText, AsIntended, Represents, Clean;
    RepresentedHolds(x, s);
    var g := QueueOf(s.config, s.procs[i]);
    var t, y := Retire(s, i).(current := None), EndText(x, i).(current := NIL);
    OnlyOnePid(s, pid, i);
    EndBeheads(x, s, pid, i);
    ServedAfterLoss(x, y, s, g);
    if Served(s) == Some(g) && |s.queues[g]| >= 2 {
      BeheadedMeets(x, y, s, g);
      if !s.config.kind.Mlfq? { NotIntended(DispatchText(y).value, s, t, g); } else { NoneIntended(Schedule(t)); }
    } else {
      BeheadedServes(x, y, s, g);
      NotIntended(ScheduleText(y), s, t, g);
    }
  }

  lemma NoneIntended(t: Sched)
    ensures !AsIntended(None, t)
  {
  }

  lemma RepresentedHolds(x: Text, s: Sched)
    requires Represents(x, s)
    ensures Shape(s) && Sound(x) && x.config == s.config && Holds(x, s.queues)
  {
  }

  lemma StaysIdle(x: Text)
    requires Sound(x) && NextQueue(x) == None
    ensures Headed(x) && ScheduleText(x) == x
  {
  }

  /** What the dispatch after the end is to do. */
  lemma IntendedAfterEnd(s: Sched, t: Sched, g: nat)
    requires Inv(s) && Shape(t) && t.queues == s.queues && t.current == None && Served(t) == Served(s)
    requires Served(s).Some? && g < QUEUES && s.queues[g] != []
    ensures Schedule(t).current == Some(s.queues[Served(s).value][0])
    ensures Served(s).value != g ==> Schedule(t).queues[g] == s.queues[g]
  {
  }

  lemma OtherHead(x: Text, y: Text, s: Sched, i: nat, q: nat)
    requires Inv(s) && Represents(x, s) && i < MAX_PROCESSES && s.current == Some(i)
    requires q < QUEUES && s.queues[q] != [] && y.table == EndText(x, i).table && y.config == x.config
    ensures var n := s.queues[q][0]; n < |y.table| && QueueOf(y.config, y.table[n].info) == q
  {
    HeadPlaced(s, q);
    KeepsPids(x, i);
    var n := s.queues[q][0];
    assert Infos(EndText(x, i).table)[n] == EndText(x, i).table[n].info;
    assert Infos(x.table)[n] == x.table[n].info == s.procs[n];
  }

  lemma HeadsDiffer(x: Text, s: Sched, q: nat, g: nat)
    requires Represents(x, s) && q < QUEUES && g < QUEUES && q != g && s.queues[q] != [] && s.queues[g] != []
    ensures s.queues[q][0] != s.queues[g][0]
  {
    hide Linked, Infos, Sound;
    assert NoCommon(s.queues[q], s.queues[g]);
    assert s.queues[q][0] in s.queues[q] && s.queues[g][0] in s.queues[g];
  }

  /**
   * scheduler_terminate_process as written ends with the intended queues and running
   * process exactly when nobody or a queued process ends, or one whose queue is empty
   * and, if it was running, the dispatch that follows is harmless.  When two or more
   * wait at the level of the running process, and nobody before it, the dispatch
   * meets a count without a head: a write through NULL under MLFQ, and otherwise
   * nobody is dispatched and the queue is lost.
   */
  lemma TerminateAsWritten(x: Text, s: Sched, pid: nat)
    requires Inv(s) && Represents(x, s) && Clean(x, s)
    ensures AsIntended(TerminateText(x, pid), Terminate(s, pid)) <==> HarmlessEnd(s, pid)
    ensures TerminateText(x, pid) == None <==> s.config.kind.Mlfq? && LosesHead(s, pid)
    ensures !s.config.kind.Mlfq? && LosesHead(s, pid) ==>
              var r := TerminateText(x, pid).value;
              r.current == NIL && r.hs[READY] == ReadyQueue(NIL, NIL, |s.queues[READY]| - 2)
  {
    hide AllLinked, Inv, Terminate, TerminateText, HarmlessEnd, AsIntended, Clean;
    match FirstMatch(s.procs, pid, 0)
    case None => EndNobody(x, s, pid);
    case Some(i) =>
      OnlyOnePid(s, pid, i);
      if s.current == Some(i) {
        if s.queues[QueueOf(s.config, s.procs[i])] == [] {
          EndAlone(x, s, pid, i);
        } else {
          EndBeforeOthers(x, s, pid, i);
        }
      } else if s.procs[i].phase == Ready {
        EndQueued(x, s, pid, i);
        HarmlessQueued(s, pid, i);
      } else {
        EndUnused(x, s, pid, i);
      }
  }

  lemma EndNobody(x: Text, s: Sched, pid: nat)
    requires Represents(x, s) && FirstMatch(s.procs, pid, 0) == None
    ensures TerminateText(x, pid) == Some(x) && AsIntended(Some(x), Terminate(s, pid)) && HarmlessEnd(s, pid)
  {
  }

  lemma HarmlessQueued(s: Sched, pid: nat, i: nat)
    requires Shape(s) && FirstMatch(s.procs, pid, 0) == Some(i) && s.procs[i].phase == Ready
    ensures HarmlessEnd(s, pid)
  {
  }

  /** PID 0 matches an unused slot; nobody is dispatched. */
  lemma EndUnused(x: Text, s: Sched, pid: nat, i: nat)
    requires Inv(s) && Represents(x, s) && Clean(x, s) && FirstMatch(s.procs, pid, 0) == Some(i)
    requires s.procs[i].phase == New && s.current != Some(i)
    ensures TerminateText(x, pid) != None
    ensures AsIntended(TerminateText(x, pid), Terminate(s, pid)) <==> HarmlessEnd(s, pid)
  {
    hide AllLinked, Inv;
    OnlyOnePid(s, pid, i);
    InvPlaced(s);
    KeepsPids(x, i);
    EndUnqueued(x, s, i);
    WithoutAbsent(s.queues[QueueOf(s.config, s.procs[i])], i);
    assert Terminate(s, pid) == Retire(s, i) && TerminateText(x, pid) == Some(EndText(x, i));
    assert Retire(s, i).queues == s.queues;
  }

  // ----- inputs --------------------------------------------------------------------------

  /** Process 0 runs and process 1 is ready. */
  function TwoProcesses(kind: Kind): (s: Sched)
    requires !kind.Mlfq?
    ensures Shape(s)
  {
    Run(Init(Config(kind, 10, true, 0, 0)), [ECreate(0), ESchedule, ECreate(0)])
  }

  function TwoLinked(kind: Kind): (x: Text)
    requires !kind.Mlfq?
  {
    var s := TwoProcesses(kind);
    var none := ReadyQueue(NIL, NIL, 0);
    Text(s.config, 0, seq(MAX_PROCESSES, i requires 0 <= i < MAX_PROCESSES => Pcb(s.procs[i], NIL, NIL)),
         [none, none, none, none, ReadyQueue(1, 1, 1)], 0)
  }

  lemma CreateAppends(s: Sched, i: nat)
    requires Shape(s) && !s.config.kind.Mlfq? && FirstFree(s.procs, 0) == Some(i)
    ensures var r := Create(s, 0);
            && r.nextPid == s.nextPid + 1 && r.current == s.current
            && r.queues == s.queues[READY := s.queues[READY] + [i]]
            && r.procs[i].pid == s.nextPid && r.procs[i].phase == Ready
            && forall j :: 0 <= j < MAX_PROCESSES && j != i ==> r.procs[j] == s.procs[j]
  {
  }

  lemma ScheduleFirst(s: Sched, n: nat)
    requires Shape(s) && !s.config.kind.Mlfq? && s.queues[READY] == [n] && s.current == None
    ensures var r := Schedule(s);
            && r.queues == s.queues[READY := []] && r.current == Some(n)
            && r.procs[n].pid == s.procs[n].pid && r.procs[n].phase == Running
            && forall j :: 0 <= j < MAX_PROCESSES && j != n ==> r.procs[j] == s.procs[j]
  {
    assert s.queues[READY][1..] == [];
  }

  lemma TwoReachable(kind: Kind)
    requires !kind.Mlfq?
    ensures var s := TwoProcesses(kind);
            && s.current == Some(0) && s.queues[READY] == [1] && (forall q :: 0 <= q < READY ==> s.queues[q] == [])
            && s.ticks == 0 && s.config.kind == kind && Inv(s)
  {
    hide Create, Schedule, Inv;
    var c := Config(kind, 10, true, 0, 0);
    var s0 := Init(c);
    CreateAppends(s0, 0);
    var s1 := Create(s0, 0);
    ScheduleFirst(s1, 0);
    var s2 := Schedule(s1);
    assert FirstFree(s2.procs, 0) == FirstFree(s2.procs, 1) == Some(1);
    CreateAppends(s2, 1);
    var es := [ECreate(0), ESchedule, ECreate(0)];
    assert es[1..] == [ESchedule, ECreate(0)] && es[1..][1..] == [ECreate(0)] && es[1..][1..][1..] == [];
    assert TwoProcesses(kind) == Create(s2, 0);
    InvInit(c);
    InvRun(s0, es);
  }

  lemma TwoRepresented(kind: Kind)
    requires !kind.Mlfq?
    ensures Represents(TwoLinked(kind), TwoProcesses(kind))
  {
    hide TwoProcesses;
    TwoReachable(kind);
    var x, s := TwoLinked(kind), TwoProcesses(kind);
    assert Infos(x.table) == s.procs;
    forall q | 0 <= q < QUEUES ensures Linked(x.table, x.hs[q], s.queues[q], NIL) {
    }
  }

  /** One process runs, one is ready: scheduling loses the running one, yielding ties it to itself. */
  lemma FailingInput(kind: Kind)
    requires !kind.Mlfq?
    ensures var x := TwoLinked(kind);
            && Sound(x) && Headed(x) && Headed(Displace(x))
            && ScheduleText(x).current == 1 && ScheduleText(x).table[0].info.phase == Ready
            && ScheduleText(x).hs[READY] == ReadyQueue(NIL, NIL, 0)
            && forall o :: !Holds(YieldText(x), o)
  {
    hide AllLinked, ScheduleText, YieldText, TwoProcesses, Displace;
    TwoReachable(kind);
    TwoRepresented(kind);
    RunningProcessLost(TwoLinked(kind), TwoProcesses(kind));
    YieldTies(TwoLinked(kind), TwoProcesses(kind));
  }

  /** One process runs, two are ready: ending the running one meets a count without a head. */
  lemma EndingInput(kind: Kind)
    requires !kind.Mlfq?
    ensures var s := Run(TwoProcesses(kind), [ECreate(0)]); Inv(s) && LosesHead(s, 1) && !HarmlessEnd(s, 1)
  {
    hide Create, Inv, TwoProcesses;
    TwoReachable(kind);
    TwoPids(kind);
    var s2 := TwoProcesses(kind);
    assert FirstFree(s2.procs, 0) == FirstFree(s2.procs, 1) == FirstFree(s2.procs, 2) == Some(2);
    CreateAppends(s2, 2);
    var s := Create(s2, 0);
    assert [ECreate(0)][1..] == [];
    assert Run(s2, [ECreate(0)]) == s;
    InvRun(s2, [ECreate(0)]);
    assert FirstMatch(s.procs, 1, 0) == Some(0);
    assert s.queues[READY] == [1, 2];
  }

  lemma TwoPids(kind: Kind)
    requires !kind.Mlfq?
    ensures var s := TwoProcesses(kind);
            && s.procs[0].pid == 1 && s.procs[0].phase == Running && s.procs[1].pid == 2 && s.procs[1].phase == Ready
            && s.procs[2].pid == 0
  {
    hide Create, Schedule;
    var c := Config(kind, 10, true, 0, 0);
    var s0 := Init(c);
    CreateAppends(s0, 0);
    var s1 := Create(s0, 0);
    ScheduleFirst(s1, 0);
    var s2 := Schedule(s1);
    assert FirstFree(s2.procs, 0) == FirstFree(s2.procs, 1) == Some(1);
    CreateAppends(s2, 1);
    var es := [ECreate(0), ESchedule, ECreate(0)];
    assert es[1..] == [ESchedule, ECreate(0)] && es[1..][1..] == [ECreate(0)] && es[1..][1..][1..] == [];
    assert TwoProcesses(kind) == Create(s2, 0);
  }
}
