/**
 * The shared-memory RPC protocol: a server thread scans the request slots, one
 * client thread per slot calls rpc_call.  Every read and write of a shared field
 * is a step of its own and steps interleave freely (sequential consistency).
 */
module Rpc {
  datatype Call = Call(id: int, p1: int, p2: int)

  /** rpc_request_t */
  datatype Slot = Slot(id: int, p1: int, p2: int, result: int, ready: bool, processed: bool)

  /**
   * A client between calls, or about to execute line `pc` of rpc_call:
   * 0 method_id, 1 param1, 2 param2, 3 result, 4 processed, 5 ready := 1,
   * 6 poll processed, 7 ready := 0, 8 read result and return.
   */
  datatype Client = Idle | Calling(call: Call, pc: nat)

  /**
   * The server at slot `at`, about to execute line `pc` of its loop body:
   * 0 read ready, 1 read processed, 2 and 3 test method_id, 4 read method_id,
   * 5 and 6 read the parameters, 7 write result, 8 write processed.
   */
  datatype Server = Server(at: nat, pc: nat, id: int, p1: int, p2: int)

  /** `served` and `returned` record, per slot, what the server handled and what calls returned. */
  datatype State = State(
    slots: seq<Slot>, clients: seq<Client>, server: Server,
    served: seq<seq<Call>>, returned: seq<seq<(Call, int)>>)

  const SERVER_LINES: nat := 9

  // ----- the handlers ----------------------------------------------------------

  /** C division truncates toward zero. */
  function TruncDiv(a: int, b: int): (r: int)
    requires b != 0
  {
    var q := Abs(a) / Abs(b);
    if (a < 0) == (b < 0) then q else -q
  }

  /** The remainder is smaller than the divisor and has the sign of the dividend. */
  lemma TruncDivExact(a: int, b: int)
    requires b != 0
    ensures var m := a - TruncDiv(a, b) * b; Abs(m) < Abs(b) && (m == 0 || (m < 0) == (a < 0))
  {
    var q, m := QuotientRemainder(Abs(a), Abs(b));
    SignedProduct(q, b);
  }

  lemma QuotientRemainder(a: nat, b: nat) returns (q: nat, m: nat)
    requires b > 0
    ensures q == a / b && a == q * b + m && m < b
  {
    q, m := a / b, a % b;
  }

  lemma SignedProduct(q: int, b: int)
    ensures q * b == if b < 0 then -(q * Abs(b)) else q * Abs(b)
    ensures -q * b == -(q * b)
  {
    if b < 0 { assert q * b == -(q * -b); }
  }

  function Abs(x: int): (r: int) {
    if x < 0 then -x else x
  }

  function Handle(id: int, p1: int, p2: int): (r: int)
    requires 0 <= id < 4
  {
    if id == 0 then p1 + p2
    else if id == 1 then p1 - p2
    else if id == 2 then p1 * p2
    else if p2 != 0 then TruncDiv(p1, p2) else 0
  }

  /** What a call must return: the handler's value, 0 for an unknown method. */
  function Value(c: Call): (r: int) {
    if 0 <= c.id < 4 then Handle(c.id, c.p1, c.p2) else 0
  }

  // ----- the steps ---------------------------------------------------------------

  datatype Event = Start(slot: nat, call: Call) | ClientStep(slot: nat) | ServerStep

  ghost predicate Shape(s: State) {
    && |s.slots| == |s.clients| == |s.served| == |s.returned| > 0
    && s.server.at < |s.slots| && s.server.pc < SERVER_LINES
  }

  function Init(n: nat): (s: State)
    requires n > 0
    ensures Shape(s)
  {
    State(seq(n, _ => Slot(0, 0, 0, 0, false, false)), seq(n, _ => Idle), Server(0, 0, 0, 0, 0),
          seq(n, _ => []), seq(n, _ => []))
  }

  function WithSlot(s: State, i: nat, x: Slot, c: Client): (r: State)
    requires i < |s.slots| && i < |s.clients|
  {
    s.(slots := s.slots[i := x], clients := s.clients[i := c])
  }

  /** One line of rpc_call on slot `i`. */
  function ClientLine(s: State, i: nat): (r: State)
    requires Shape(s) && i < |s.slots|
    ensures Shape(r) && |r.slots| == |s.slots|
  {
    var x := s.slots[i];
    match s.clients[i]
    case Idle => s
    case Calling(c, pc) =>
      if pc == 0 then WithSlot(s, i, x.(id := c.id), Calling(c, 1))
      else if pc == 1 then WithSlot(s, i, x.(p1 := c.p1), Calling(c, 2))
      else if pc == 2 then WithSlot(s, i, x.(p2 := c.p2), Calling(c, 3))
      else if pc == 3 then WithSlot(s, i, x.(result := 0), Calling(c, 4))
      else if pc == 4 then WithSlot(s, i, x.(processed := false), Calling(c, 5))
      else if pc == 5 then WithSlot(s, i, x.(ready := true), Calling(c, 6))
      else if pc == 6 then WithSlot(s, i, x, Calling(c, if x.processed then 7 else 6))
      else if pc == 7 then WithSlot(s, i, x.(ready := false), Calling(c, 8))
      else WithSlot(s, i, x, Idle).(returned := s.returned[i := s.returned[i] + [(c, x.result)]])
  }

  function NextSlot(s: State): (r: Server)
    requires Shape(s)
    ensures r.at < |s.slots| && r.pc == 0
  {
    s.server.(at := if s.server.at + 1 == |s.slots| then 0 else s.server.at + 1, pc := 0)
  }

  /** One line of the server's loop body. */
  function ServerLine(s: State): (r: State)
    requires Shape(s)
    ensures Shape(r) && |r.slots| == |s.slots|
  {
    var v, i := s.server, s.server.at;
    var x := s.slots[i];
    if v.pc == 0 then s.(server := if x.ready then v.(pc := 1) else NextSlot(s))
    else if v.pc == 1 then s.(server := if !x.processed then v.(pc := 2) else NextSlot(s))
    else if v.pc == 2 then s.(server := v.(pc := if x.id >= 0 then 3 else 8))
    else if v.pc == 3 then s.(server := v.(pc := if x.id < 4 then 4 else 8))
    else if v.pc == 4 then s.(server := v.(pc := 5, id := x.id))
    else if v.pc == 5 then s.(server := v.(pc := 6, p1 := x.p1))
    else if v.pc == 6 then s.(server := v.(pc := 7, p2 := x.p2))
    else if v.pc == 7 then
      s.(slots := s.slots[i := x.(result := Value(Call(v.id, v.p1, v.p2)))], server := v.(pc := 8))
    else
      s.(slots := s.slots[i := x.(processed := true)], server := NextSlot(s),
         served := s.served[i := s.served[i] + [Call(x.id, x.p1, x.p2)]])
  }

  function Step(s: State, e: Event): (r: State)
    requires Shape(s)
    ensures Shape(r) && |r.slots| == |s.slots|
  {
    match e
    case Start(i, c) => if i < |s.slots| && s.clients[i].Idle? then s.(clients := s.clients[i := Calling(c, 0)]) else s
    case ClientStep(i) => if i < |s.slots| then ClientLine(s, i) else s
    case ServerStep => ServerLine(s)
  }

  function Run(s: State, es: seq<Event>): (r: State)
    requires Shape(s)
    ensures Shape(r) && |r.slots| == |s.slots|
    decreases es
  {
    if es == [] then s else Run(Step(s, es[0]), es[1..])
  }

  // ----- the invariant -----------------------------------------------------------------

  function Calls(log: seq<(Call, int)>): (r: seq<Call>)
    ensures |r| == |log|
  {
    seq(|log|, k requires 0 <= k < |log| => log[k].0)
  }

  /** No call on the slot has raised `ready` yet. */
  predicate Untouched(s: State, i: nat)
    requires Shape(s) && i < |s.slots|
  {
    s.returned[i] == [] && (s.clients[i].Calling? ==> s.clients[i].pc <= 5)
  }

  /** What the client's position says about its slot. */
  ghost predicate ClientOk(s: State, i: nat)
    requires Shape(s) && i < |s.slots|
  {
    var x, done := s.slots[i], Calls(s.returned[i]);
    match s.clients[i]
    case Idle =>
      && !x.ready && s.served[i] == done
      && (!Untouched(s, i) ==> x.processed)
    case Calling(c, pc) =>
      && pc <= 8
      && (pc >= 1 ==> x.id == c.id) && (pc >= 2 ==> x.p1 == c.p1) && (pc >= 3 ==> x.p2 == c.p2)
      && (x.ready <==> pc == 6 || pc == 7)
      && (pc <= 4 ==> s.served[i] == done && (!Untouched(s, i) ==> x.processed))
      && (pc == 5 || pc == 6 ==>
            if x.processed then s.served[i] == done + [c] && x.result == Value(c)
            else s.served[i] == done && ((s.server.at == i && s.server.pc == 8) || x.result == 0))
      && (pc == 4 ==> x.result == 0)
      && (pc >= 7 ==> x.processed && s.served[i] == done + [c] && x.result == Value(c))
  }

  /** What the server's position says about the slot it is at. */
  ghost predicate ServerOk(s: State)
    requires Shape(s)
  {
    var v, x := s.server, s.slots[s.server.at];
    && (v.pc >= 1 ==> !Untouched(s, v.at))
    && (v.pc >= 2 ==>
          var c := s.clients[v.at];
          && c.Calling? && (c.pc == 5 || c.pc == 6) && !x.processed
          && (v.pc == 3 ==> c.call.id >= 0)
          && (4 <= v.pc <= 7 ==> 0 <= c.call.id < 4)
          && (5 <= v.pc <= 7 ==> v.id == c.call.id)
          && (6 <= v.pc <= 7 ==> v.p1 == c.call.p1)
          && (v.pc == 7 ==> v.p2 == c.call.p2)
          && (v.pc == 8 ==> x.result == Value(c.call)))
  }

  /** Every returned value is the value of its call. */
  ghost predicate ReturnsRight(log: seq<(Call, int)>) {
    forall k :: 0 <= k < |log| ==> log[k].1 == Value(log[k].0)
  }

  ghost predicate Inv(s: State) {
    && Shape(s)
    && (forall i :: 0 <= i < |s.slots| ==> ClientOk(s, i) && ReturnsRight(s.returned[i]))
    && ServerOk(s)
  }

  lemma InvInit(n: nat)
    requires n > 0
    ensures Inv(Init(n))
  {
  }

  lemma CallsAppend(log: seq<(Call, int)>, c: Call, v: int)
    ensures Calls(log + [(c, v)]) == Calls(log) + [c]
  {
  }

  lemma InvStart(s: State, i: nat, c: Call)
    requires Inv(s)
    ensures Inv(Step(s, Start(i, c)))
  {
    var r := Step(s, Start(i, c));
    forall j | 0 <= j < |s.slots| ensures ClientOk(r, j) && ReturnsRight(r.returned[j]) {
      assert ClientOk(s, j);
    }
  }

  /** A client's line keeps what holds of its own slot. */
  lemma ClientOwn(s: State, i: nat)
    requires Inv(s) && i < |s.slots|
    ensures ClientOk(ClientLine(s, i), i) && ReturnsRight(ClientLine(s, i).returned[i])
  {
    assert ClientOk(s, i);
    if s.clients[i].Calling? { CallsAppend(s.returned[i], s.clients[i].call, s.slots[i].result); }
  }

  /** It does not pull the slot away under the server. */
  lemma ClientServer(s: State, i: nat)
    requires Inv(s) && i < |s.slots|
    ensures ServerOk(ClientLine(s, i))
  {
    assert ClientOk(s, i);
  }

  /** Nor does it touch the other slots. */
  lemma ClientElsewhere(s: State, i: nat, j: nat)
    requires Shape(s) && i < |s.slots| && j < |s.slots| && j != i && ClientOk(s, j) && ReturnsRight(s.returned[j])
    ensures ClientOk(ClientLine(s, i), j) && ReturnsRight(ClientLine(s, i).returned[j])
  {
    hide Value, ReturnsRight;
  }

  lemma InvClient(s: State, i: nat)
    requires Inv(s) && i < |s.slots|
    ensures Inv(ClientLine(s, i))
  {
    hide ServerOk, ClientOk, ClientLine, ReturnsRight;
    ClientOwn(s, i);
    ClientServer(s, i);
    forall j | 0 <= j < |s.slots|
      ensures ClientOk(ClientLine(s, i), j) && ReturnsRight(ClientLine(s, i).returned[j])
    {
      if j != i { ClientElsewhere(s, i, j); }
    }
  }

  /** The server's line keeps what holds of the slot it works on. */
  lemma ServerOwn(s: State)
    requires Inv(s)
    ensures ClientOk(ServerLine(s), s.server.at) && ServerOk(ServerLine(s))
  {
    assert ClientOk(s, s.server.at);
    assert ClientOk(s, NextSlot(s).at);
  }

  lemma ServerElsewhere(s: State, j: nat)
    requires Shape(s) && j < |s.slots| && j != s.server.at && ClientOk(s, j)
    ensures ClientOk(ServerLine(s), j)
  {
    hide Value;
  }

  lemma ServerReturns(s: State)
    requires Shape(s)
    ensures ServerLine(s).returned == s.returned
  {
  }

  lemma InvServer(s: State)
    requires Inv(s)
    ensures Inv(ServerLine(s))
  {
    hide ServerOk, ClientOk, ServerLine, ReturnsRight;
    ServerOwn(s);
    ServerReturns(s);
    forall j | 0 <= j < |s.slots| ensures ClientOk(ServerLine(s), j) && ReturnsRight(ServerLine(s).returned[j]) {
      if j != s.server.at { ServerElsewhere(s, j); }
    }
  }

  lemma InvStep(s: State, e: Event)
    requires Inv(s)
    ensures Inv(Step(s, e))
  {
    match e
    case Start(i, c) => InvStart(s, i, c);
    case ClientStep(i) => if i < |s.slots| { InvClient(s, i); }
    case ServerStep => InvServer(s);
  }

  lemma {:induction false} InvRun(s: State, es: seq<Event>)
    requires Inv(s)
    ensures Inv(Run(s, es))
    decreases es
  {
    if es != [] {
      InvStep(s, es[0]);
      InvRun(Step(s, es[0]), es[1..]);
    }
  }

  // ----- linearizability ------------------------------------------------------------------

  /** The call in progress on slot `i`, if the server has already handled it. */
  function Handled(s: State, i: nat): (r: seq<Call>)
    requires Shape(s) && i < |s.slots|
  {
    match s.clients[i]
    case Idle => []
    case Calling(c, pc) => if pc >= 5 && s.slots[i].processed then [c] else []
  }

  /**
   * In every interleaving: each call returned the value of its own parameters, and
   * the server handled exactly the returned calls of each slot, once each and in
   * that order, plus at most the one still in progress.
   */
  lemma Linearizable(n: nat, es: seq<Event>, i: nat)
    requires n > 0 && i < n
    ensures var s := Run(Init(n), es);
            && ReturnsRight(s.returned[i])
            && s.served[i] == Calls(s.returned[i]) + Handled(s, i)
  {
    InvInit(n);
    InvRun(Init(n), es);
    var s := Run(Init(n), es);
    assert ClientOk(s, i);
  }

  // ----- what the calls are answered -----------------------------------------------------------

  /** `v` answers `c`: sum, difference, product, quotient toward zero, and 0 for everything else. */
  ghost predicate Answers(c: Call, v: int) {
    && (c.id == 0 ==> v - c.p2 == c.p1)
    && (c.id == 1 ==> v + c.p2 == c.p1)
    && (c.id == 2 ==> v == c.p1 * c.p2)
    && (c.id == 3 && c.p2 != 0 ==>
          var rest := c.p1 - v * c.p2;
          Abs(rest) < Abs(c.p2) && (c.p1 >= 0 ==> rest >= 0) && (c.p1 <= 0 ==> rest <= 0))
    && (c.id == 3 && c.p2 == 0 ==> v == 0)
    && (c.id < 0 || c.id > 3 ==> v == 0)
  }

  lemma ValueAnswers(c: Call)
    ensures Answers(c, Value(c))
  {
    if c.id == 3 && c.p2 != 0 { TruncDivExact(c.p1, c.p2); }
  }

  /** Two answers to one call are equal: the answer is determined. */
  lemma OneAnswer(c: Call, v: int, w: int)
    requires Answers(c, v) && Answers(c, w)
    ensures v == w
  {
    if c.id == 3 && c.p2 != 0 {
      var b := Abs(c.p2);
      SignedGap(v, w, c.p2);
      if v > w { MulAtLeast(v - w, b); }
      if w > v { MulAtLeast(w - v, b); }
    }
  }

  lemma SignedGap(v: int, w: int, b: int)
    ensures (v - w) * b == v * b - w * b
    ensures (v - w) * Abs(b) == if b < 0 then w * b - v * b else v * b - w * b
    ensures (w - v) * Abs(b) == -((v - w) * Abs(b))
  {
  }

  lemma MulAtLeast(k: int, b: nat)
    requires k > 0
    ensures k * b >= b
  {
    assert k * b == (k - 1) * b + b;
  }

  /** In every interleaving each call that returned was answered. */
  lemma CallsAnswered(n: nat, es: seq<Event>, i: nat)
    requires n > 0 && i < n
    ensures forall k :: 0 <= k < |Run(Init(n), es).returned[i]| ==>
              Answers(Run(Init(n), es).returned[i][k].0, Run(Init(n), es).returned[i][k].1)
  {
    Linearizable(n, es, i);
    var log := Run(Init(n), es).returned[i];
    forall k | 0 <= k < |log| ensures Answers(log[k].0, log[k].1) { ValueAnswers(log[k].0); }
  }

  /** The calls a run starts on slot `i`; a client inside a call starts none. */
  function Started(s: State, es: seq<Event>, i: nat): (r: seq<Call>)
    requires Shape(s) && i < |s.slots|
    decreases es
  {
    if es == [] then []
    else
      (if es[0].Start? && es[0].slot == i && s.clients[i].Idle? then [es[0].call] else []) +
      Started(Step(s, es[0]), es[1..], i)
  }

  function InProgress(s: State, i: nat): (r: seq<Call>)
    requires Shape(s) && i < |s.slots|
  {
    if s.clients[i].Idle? then [] else [s.clients[i].call]
  }

  lemma {:induction false} StartedReturn(s: State, es: seq<Event>, i: nat)
    requires Shape(s) && i < |s.slots|
    ensures var r := Run(s, es);
            Calls(s.returned[i]) + InProgress(s, i) + Started(s, es, i) == Calls(r.returned[i]) + InProgress(r, i)
    decreases es
  {
    if es != [] {
      var r := Step(s, es[0]);
      StartedReturn(r, es[1..], i);
      StepStarts(s, es[0], i);
    }
  }

  lemma StepStarts(s: State, e: Event, i: nat)
    requires Shape(s) && i < |s.slots|
    ensures var r := Step(s, e);
            Calls(r.returned[i]) + InProgress(r, i) ==
            Calls(s.returned[i]) + InProgress(s, i) +
            (if e.Start? && e.slot == i && s.clients[i].Idle? then [e.call] else [])
  {
    if e == ClientStep(i) && s.clients[i].Calling? {
      CallsAppend(s.returned[i], s.clients[i].call, s.slots[i].result);
    }
  }

  /** The calls started on a slot are those that returned, in that order, and the one in progress. */
  lemma CallsReturnInOrder(n: nat, es: seq<Event>, i: nat)
    requires n > 0 && i < n
    ensures var r := Run(Init(n), es);
            Started(Init(n), es, i) == Calls(r.returned[i]) + InProgress(r, i)
  {
    StartedReturn(Init(n), es, i);
  }

  /** Between calls a slot is not ready: the server has nothing to do there. */
  lemma QuietSlots(n: nat, es: seq<Event>, i: nat)
    requires n > 0 && i < n && Run(Init(n), es).clients[i].Idle?
    ensures !Run(Init(n), es).slots[i].ready
    ensures Run(Init(n), es).served[i] == Calls(Run(Init(n), es).returned[i])
  {
    InvInit(n);
    InvRun(Init(n), es);
    assert ClientOk(Run(Init(n), es), i);
  }

  // ----- progress ---------------------------------------------------------------------------

  /** How many slots the server passes before it is at slot `i`. */
  function Ahead(s: State, i: nat): (n: nat)
    requires Shape(s) && i < |s.slots|
    ensures n < |s.slots|
  {
    if i >= s.server.at then i - s.server.at else i + |s.slots| - s.server.at
  }

  /** Server steps until a pending call on slot `i` is handled, at most. */
  function StepsLeft(s: State, i: nat): (n: nat)
    requires Shape(s) && i < |s.slots|
    ensures n <= SERVER_LINES * |s.slots|
  {
    SERVER_LINES * (Ahead(s, i) + 1) - s.server.pc
  }

  /** The client of slot `i` polls for an unhandled call. */
  ghost predicate Pending(s: State, i: nat, c: Call) {
    Inv(s) && i < |s.slots| && s.clients[i] == Calling(c, 6) && !s.slots[i].processed
  }

  /** The call is handled but has not returned yet. */
  ghost predicate Ripe(s: State, i: nat, c: Call, log: seq<(Call, int)>) {
    && Inv(s) && i < |s.slots| && s.returned[i] == log && s.slots[i].processed
    && s.clients[i].Calling? && s.clients[i].call == c && 6 <= s.clients[i].pc <= 8
  }

  lemma ServerCloser(s: State, i: nat, c: Call)
    requires Pending(s, i, c)
    ensures var r := ServerLine(s);
            Ripe(r, i, c, s.returned[i]) || (Pending(r, i, c) && StepsLeft(r, i) < StepsLeft(s, i))
    ensures ServerLine(s).returned == s.returned
  {
    InvServer(s);
    assert ClientOk(s, i) && ClientOk(s, s.server.at);
  }

  lemma StepPending(s: State, e: Event, i: nat, c: Call)
    requires Pending(s, i, c)
    ensures var r := Step(s, e);
            && r.returned[i] == s.returned[i]
            && (Ripe(r, i, c, s.returned[i]) ||
                (Pending(r, i, c) && StepsLeft(r, i) + (if e.ServerStep? then 1 else 0) <= StepsLeft(s, i)))
  {
    InvStep(s, e);
    assert ClientOk(s, i);
    if e.ServerStep? { ServerCloser(s, i, c); }
  }

  lemma StepRipe(s: State, e: Event, i: nat, c: Call, log: seq<(Call, int)>)
    requires Ripe(s, i, c, log)
    ensures var r := Step(s, e);
            if e == ClientStep(i) && s.clients[i].pc == 8 then r.returned[i] == log + [(c, Value(c))]
            else Ripe(r, i, c, log) && r.clients[i].pc == s.clients[i].pc + (if e == ClientStep(i) then 1 else 0)
  {
    InvStep(s, e);
    assert ClientOk(s, i) && ServerOk(s);
  }

  function ServerSteps(es: seq<Event>): (n: nat) {
    if es == [] then 0 else (if es[0].ServerStep? then 1 else 0) + ServerSteps(es[1..])
  }

  function ClientSteps(es: seq<Event>, i: nat): (n: nat) {
    if es == [] then 0 else (if es[0] == ClientStep(i) then 1 else 0) + ClientSteps(es[1..], i)
  }

  /** At some point of the run the log of slot `i` is `log` plus `c` with its value. */
  ghost predicate Returns(s: State, es: seq<Event>, i: nat, c: Call, log: seq<(Call, int)>)
    requires Shape(s) && i < |s.slots|
  {
    exists k :: 0 <= k <= |es| && Run(s, es[..k]).returned[i] == log + [(c, Value(c))]
  }

  lemma ReturnsLater(s: State, es: seq<Event>, i: nat, c: Call, log: seq<(Call, int)>)
    requires Shape(s) && i < |s.slots| && es != [] && Returns(Step(s, es[0]), es[1..], i, c, log)
    ensures Returns(s, es, i, c, log)
  {
    var k :| 0 <= k <= |es[1..]| && Run(Step(s, es[0]), es[1..][..k]).returned[i] == log + [(c, Value(c))];
    assert es[..k + 1][1..] == es[1..][..k];
    assert Run(s, es[..k + 1]) == Run(Step(s, es[0]), es[1..][..k]);
  }

  /** A handled call returns within three steps of its client. */
  lemma {:induction false} RipeReturns(s: State, es: seq<Event>, i: nat, c: Call, log: seq<(Call, int)>)
    requires Ripe(s, i, c, log) && ClientSteps(es, i) >= 9 - s.clients[i].pc
    ensures Returns(s, es, i, c, log)
    decreases es
  {
    StepRipe(s, es[0], i, c, log);
    var r := Step(s, es[0]);
    if es[0] == ClientStep(i) && s.clients[i].pc == 8 {
      assert Run(r, es[1..][..0]) == r;
    } else {
      RipeReturns(r, es[1..], i, c, log);
    }
    ReturnsLater(s, es, i, c, log);
  }

  lemma ClientStepsConcat(xs: seq<Event>, ys: seq<Event>, i: nat)
    ensures ClientSteps(xs + ys, i) == ClientSteps(xs, i) + ClientSteps(ys, i)
  {
    if xs == [] {
      assert xs + ys == ys;
    } else {
      assert (xs + ys)[1..] == xs[1..] + ys;
    }
  }

  /**
   * Bounded progress: once a client polls, nine server steps per slot and then
   * three steps of the client complete its call with the right value, however the
   * other clients are scheduled.
   */
  lemma {:induction false} CallCompletes(s: State, first: seq<Event>, rest: seq<Event>, i: nat, c: Call)
    requires Pending(s, i, c) && ServerSteps(first) >= StepsLeft(s, i) && ClientSteps(rest, i) >= 3
    ensures Returns(s, first + rest, i, c, s.returned[i])
    decreases first
  {
    var es := first + rest;
    StepPending(s, first[0], i, c);
    var r := Step(s, first[0]);
    assert es[0] == first[0] && es[1..] == first[1..] + rest;
    if Ripe(r, i, c, s.returned[i]) {
      ClientStepsConcat(first[1..], rest, i);
      RipeReturns(r, es[1..], i, c, s.returned[i]);
    } else {
      CallCompletes(r, first[1..], rest, i, c);
    }
    ReturnsLater(s, es, i, c, s.returned[i]);
  }

  /** The bound in terms of the number of slots. */
  lemma CallCompletesInOneScan(s: State, first: seq<Event>, rest: seq<Event>, i: nat, c: Call)
    requires Pending(s, i, c) && ServerSteps(first) >= SERVER_LINES * |s.slots| && ClientSteps(rest, i) >= 3
    ensures Returns(s, first + rest, i, c, s.returned[i])
  {
    CallCompletes(s, first, rest, i, c);
  }
}
