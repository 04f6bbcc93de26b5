/** A bounded blocking queue: one mutex, two condition variables, any number of
    producer and consumer threads. */
module RingBuffer {
  import opened Options

  // ---------------------------------------------------------------------------
  // What each critical section does to the state behind the mutex
  // ---------------------------------------------------------------------------

  datatype Inner<T> = Inner(queue: seq<T>, capacity: nat, closed: bool)

  datatype Outcome<T> = Wait | Closed | Empty | Pushed | Popped(value: T)

  /** `push` from taking the lock, first or again after a wait, to giving it up. */
  function PushSection<T>(b: Inner<T>, value: T): (Inner<T>, Outcome<T>) {
    if |b.queue| == b.capacity && !b.closed then (b, Wait)
    else if b.closed then (b, Closed)
    else (b.(queue := b.queue + [value]), Pushed)
  }

  /** `pop` from taking the lock, first or again after a wait, to giving it up. */
  function PopSection<T>(b: Inner<T>): (Inner<T>, Outcome<T>) {
    if b.queue != [] then (b.(queue := b.queue[1..]), Popped(b.queue[0]))
    else if b.closed then (b, Closed)
    else (b, Wait)
  }

  /** A full buffer is reported as closed too. */
  function TryPushSection<T>(b: Inner<T>, value: T): (Inner<T>, Outcome<T>) {
    if b.closed || |b.queue| == b.capacity then (b, Closed)
    else (b.(queue := b.queue + [value]), Pushed)
  }

  function TryPopSection<T>(b: Inner<T>): (Inner<T>, Outcome<T>) {
    if b.queue != [] then (b.(queue := b.queue[1..]), Popped(b.queue[0]))
    else if b.closed then (b, Closed)
    else (b, Empty)
  }

  /** `close` under the lock. */
  function CloseSection<T>(b: Inner<T>): Inner<T> {
    b.(closed := true)
  }

  /** The state behind the mutex, updated in place by whoever holds the lock. */
  class Guarded<T> {
    var queue: seq<T>
    const capacity: nat
    var closed: bool

    ghost function Value(): Inner<T>
      reads this
    {
      Inner(queue, capacity, closed)
    }

    constructor (capacity: nat)
      requires capacity > 0
      ensures Value() == Inner([], capacity, false)
    {
      this.queue, this.capacity, this.closed := [], capacity, false;
    }

    method Push(value: T) returns (o: Outcome<T>)
      modifies this
      ensures (Value(), o) == PushSection(old(Value()), value)
    {
      if |queue| == capacity && !closed {
        return Wait;
      }
      if closed {
        return Closed;
      }
      queue := queue + [value];
      return Pushed;
    }

    method Pop() returns (o: Outcome<T>)
      modifies this
      ensures (Value(), o) == PopSection(old(Value()))
    {
      if |queue| == 0 && !closed {
        return Wait;
      }
      if |queue| > 0 {
        o := Popped(queue[0]);
        queue := queue[1..];
        return;
      }
      return Closed;
    }

    method TryPush(value: T) returns (o: Outcome<T>)
      modifies this
      ensures (Value(), o) == TryPushSection(old(Value()), value)
    {
      if closed {
        return Closed;
      }
      if |queue| == capacity {
        return Closed;
      }
      queue := queue + [value];
      return Pushed;
    }

    method TryPop() returns (o: Outcome<T>)
      modifies this
      ensures (Value(), o) == TryPopSection(old(Value()))
    {
      if |queue| > 0 {
        o := Popped(queue[0]);
        queue := queue[1..];
        return;
      }
      return if closed then Closed else Empty;
    }

    method Close()
      modifies this
      ensures Value() == CloseSection(old(Value()))
    {
      closed := true;
    }
  }

  // ---------------------------------------------------------------------------
  // Threads
  // ---------------------------------------------------------------------------

  /** Where a thread stands. `...Waiting` is in a condition variable's wait set;
      `...Woken` has left it and has yet to take the lock again. */
  datatype Pc =
    | Idle
    | PushStart | PushWaiting | PushWoken
    | PopStart | PopWaiting | PopWoken
    | TryPushStart | TryPopStart | CloseStart
    | NotifyNotEmpty | NotifyNotFull
    | NotifyAllNotFull | NotifyAllNotEmpty

  /** `pushed` and `popped` list the values in lock order; `reported` says that
      some `pop` or `try_pop` has returned Closed. */
  datatype State<T> = State(
    buffer: Inner<T>, pcs: seq<Pc>, args: seq<T>,
    pushed: seq<T>, popped: seq<T>, reported: bool)

  /** A thread starts a call, takes its next step, or wakes up spuriously.
      `woken` is the waiting thread that a `notify_one` picks. */
  datatype Action<T> =
    | Call(thread: nat, start: Pc, value: T)
    | Advance(thread: nat, woken: Option<nat>)
    | Spurious(thread: nat)

  predicate IsStart(pc: Pc) {
    pc in {PushStart, PopStart, TryPushStart, TryPopStart, CloseStart}
  }

  predicate IsParked(pc: Pc) { pc in {Idle, PushWaiting, PopWaiting} }

  /** The wait set a `notify_one` picks from. */
  function NotifiedBy(pc: Pc): Option<Pc> {
    match pc
    case NotifyNotEmpty => Some(PopWaiting)
    case NotifyNotFull => Some(PushWaiting)
    case _ => None
  }

  predicate Enabled<T>(s: State<T>, a: Action<T>) {
    && a.thread < |s.pcs| == |s.args|
    && match a
       case Call(t, start, _) => s.pcs[t] == Idle && IsStart(start)
       case Spurious(t) => s.pcs[t] == PushWaiting || s.pcs[t] == PopWaiting
       case Advance(t, woken) =>
         && !IsParked(s.pcs[t])
         && var from := NotifiedBy(s.pcs[t]);
            if from.Some? && from.value in s.pcs
            then woken.Some? && woken.value < |s.pcs| && s.pcs[woken.value] == from.value
            else woken.None?
  }

  function Woken(pc: Pc): Pc {
    match pc
    case PushWaiting => PushWoken
    case PopWaiting => PopWoken
    case _ => pc
  }

  function WakeAll(pcs: seq<Pc>, waiting: Pc): (r: seq<Pc>)
    ensures |r| == |pcs|
    ensures forall i :: 0 <= i < |pcs| ==> r[i] == if pcs[i] == waiting then Woken(waiting) else pcs[i]
  {
    if pcs == [] then []
    else [if pcs[0] == waiting then Woken(waiting) else pcs[0]] + WakeAll(pcs[1..], waiting)
  }

  predicate InPush(pc: Pc) { pc == PushStart || pc == PushWoken || pc == TryPushStart }

  predicate InPop(pc: Pc) { pc == PopStart || pc == PopWoken || pc == TryPopStart }

  function AfterPush<T>(s: State<T>, t: nat): State<T>
    requires t < |s.pcs| == |s.args|
  {
    var v := s.args[t];
    var section := if s.pcs[t] == TryPushStart then TryPushSection(s.buffer, v) else PushSection(s.buffer, v);
    match section.1
    case Pushed => s.(buffer := section.0, pcs := s.pcs[t := NotifyNotEmpty], pushed := s.pushed + [v])
    case Wait => s.(pcs := s.pcs[t := PushWaiting])
    case _ => s.(pcs := s.pcs[t := Idle])
  }

  function AfterPop<T>(s: State<T>, t: nat): State<T>
    requires t < |s.pcs|
  {
    var section := if s.pcs[t] == TryPopStart then TryPopSection(s.buffer) else PopSection(s.buffer);
    match section.1
    case Popped(v) => s.(buffer := section.0, pcs := s.pcs[t := NotifyNotFull], popped := s.popped + [v])
    case Wait => s.(pcs := s.pcs[t := PopWaiting])
    case Closed => s.(pcs := s.pcs[t := Idle], reported := true)
    case _ => s.(pcs := s.pcs[t := Idle])
  }

  /** `notify_one`: the thread returns and the picked waiter, if any, leaves the wait set. */
  function AfterNotify(pcs: seq<Pc>, t: nat, woken: Option<nat>): seq<Pc>
    requires t < |pcs| && (woken.Some? ==> woken.value < |pcs|)
  {
    if woken.None? then pcs[t := Idle]
    else pcs[t := Idle][woken.value := Woken(pcs[woken.value])]
  }

  function Step<T>(s: State<T>, a: Action<T>): State<T>
    requires Enabled(s, a)
  {
    var t := a.thread;
    var pc := s.pcs[t];
    match a
    case Call(_, start, v) => s.(pcs := s.pcs[t := start], args := s.args[t := v])
    case Spurious(_) => s.(pcs := s.pcs[t := Woken(pc)])
    case Advance(_, woken) =>
      if InPush(pc) then AfterPush(s, t)
      else if InPop(pc) then AfterPop(s, t)
      else if pc == CloseStart then s.(buffer := CloseSection(s.buffer), pcs := s.pcs[t := NotifyAllNotFull])
      else if pc == NotifyAllNotFull then s.(pcs := WakeAll(s.pcs, PushWaiting)[t := NotifyAllNotEmpty])
      else if pc == NotifyAllNotEmpty then s.(pcs := WakeAll(s.pcs, PopWaiting)[t := Idle])
      else s.(pcs := AfterNotify(s.pcs, t, woken))
  }

  function Initial<T>(capacity: nat, args: seq<T>): State<T> {
    State(Inner([], capacity, false), seq(|args|, _ => Idle), args, [], [], false)
  }

  predicate ValidRun<T>(s: State<T>, run: seq<Action<T>>)
    decreases |run|
  {
    run == [] || (Enabled(s, run[0]) && ValidRun(Step(s, run[0]), run[1..]))
  }

  function Run<T>(s: State<T>, run: seq<Action<T>>): State<T>
    requires ValidRun(s, run)
    decreases |run|
  {
    if run == [] then s else Run(Step(s, run[0]), run[1..])
  }

  // ---------------------------------------------------------------------------
  // First in, first out, bounded, and sealed by close
  // ---------------------------------------------------------------------------

  ghost predicate FifoInv<T>(s: State<T>) {
    && |s.args| == |s.pcs|
    && s.pushed == s.popped + s.buffer.queue
    && |s.buffer.queue| <= s.buffer.capacity
    && (s.reported ==> s.buffer.closed && s.buffer.queue == [])
  }

  /** What a step may do to the buffer and its history. */
  ghost predicate Grows<T>(s: State<T>, s': State<T>) {
    && s.pushed <= s'.pushed && s.popped <= s'.popped
    && (s.buffer.closed ==> s'.buffer.closed && s'.pushed == s.pushed)
    && (s.reported ==> s'.reported)
    && s'.buffer.capacity == s.buffer.capacity && |s'.pcs| == |s.pcs|
  }

  lemma {:induction false} PushKeepsFifo<T>(s: State<T>, t: nat)
    requires t < |s.pcs| && FifoInv(s)
    ensures FifoInv(AfterPush(s, t)) && Grows(s, AfterPush(s, t))
  {
    assert s.popped + s.buffer.queue + [s.args[t]] == s.popped + (s.buffer.queue + [s.args[t]]);
  }

  lemma {:induction false} PopKeepsFifo<T>(s: State<T>, t: nat)
    requires t < |s.pcs| && FifoInv(s)
    ensures FifoInv(AfterPop(s, t)) && Grows(s, AfterPop(s, t))
  {
    if s.buffer.queue != [] {
      assert s.popped + s.buffer.queue == s.popped + [s.buffer.queue[0]] + s.buffer.queue[1..];
    }
  }

  lemma {:induction false} StepKeepsFifo<T>(s: State<T>, a: Action<T>)
    requires Enabled(s, a) && FifoInv(s)
    ensures FifoInv(Step(s, a)) && Grows(s, Step(s, a))
  {
    if a.Advance? && InPush(s.pcs[a.thread]) {
      PushKeepsFifo(s, a.thread);
    } else if a.Advance? && InPop(s.pcs[a.thread]) {
      PopKeepsFifo(s, a.thread);
    }
  }

  lemma {:induction false} RunKeepsFifo<T>(s: State<T>, run: seq<Action<T>>)
    requires ValidRun(s, run) && FifoInv(s)
    ensures FifoInv(Run(s, run)) && Grows(s, Run(s, run))
    decreases |run|
  {
    if run == [] {
    } else {
      StepKeepsFifo(s, run[0]);
      RunKeepsFifo(Step(s, run[0]), run[1..]);
    }
  }

  /** In every run the values popped are a prefix of the values pushed, in lock
      order; the queue never outgrows the capacity; and once a consumer was told
      Closed, everything ever pushed has been popped, exactly once and in order. */
  lemma {:induction false} Fifo<T>(capacity: nat, args: seq<T>, run: seq<Action<T>>)
    requires ValidRun(Initial(capacity, args), run)
    ensures var s := Run(Initial(capacity, args), run);
      && s.popped <= s.pushed
      && |s.pushed| - |s.popped| <= capacity
      && (s.reported ==> s.popped == s.pushed)
  {
    RunKeepsFifo(Initial(capacity, args), run);
  }

  /** After close, however the run goes on, no push succeeds, and after the
      first Closed told to a consumer nothing is popped either. */
  lemma {:induction false} CloseSeals<T>(s: State<T>, run: seq<Action<T>>)
    requires ValidRun(s, run) && FifoInv(s) && s.buffer.closed
    ensures Run(s, run).pushed == s.pushed
    ensures s.reported ==> Run(s, run).popped == s.popped
  {
    RunKeepsFifo(s, run);
  }

  /** When each call reports Closed, reports Empty, or waits. `try_push` reports Closed on
      an open buffer exactly when the buffer is full; `push` waits then. */
  lemma {:induction false} ClosedReports<T>(b: Inner<T>, value: T)
    ensures TryPushSection(b, value).1 == Closed <==> b.closed || |b.queue| == b.capacity
    ensures PushSection(b, value).1 == Closed <==> b.closed
    ensures PopSection(b).1 == Closed <==> b.closed && b.queue == []
    ensures TryPopSection(b).1 == Closed <==> b.closed && b.queue == []
    ensures TryPopSection(b).1 == Empty <==> !b.closed && b.queue == []
    ensures PushSection(b, value).1 == Wait <==> !b.closed && |b.queue| == b.capacity
    ensures PopSection(b).1 == Wait <==> !b.closed && b.queue == []
    ensures TryPushSection(b, value).1 != Wait && TryPopSection(b).1 != Wait
  {
  }

  /** A consumer's step is recorded as told Closed exactly on a closed and drained buffer. */
  lemma {:induction false} ClosedIsRecorded<T>(s: State<T>, t: nat)
    requires t < |s.pcs|
    ensures AfterPop(s, t).reported <==> s.reported || (s.buffer.closed && s.buffer.queue == [])
  {
  }

  // ---------------------------------------------------------------------------
  // No lost wakeup
  // ---------------------------------------------------------------------------

  /** How many threads stand at each place that matters to a waiter. */
  datatype Tally = Tally(
    pushWaiting: int, pushWoken: int, popWaiting: int, popWoken: int,
    notEmpty: int, notFull: int, allNotFull: int, allNotEmpty: int)
  {
    ghost predicate NonNegative() {
      && pushWaiting >= 0 && pushWoken >= 0 && popWaiting >= 0 && popWoken >= 0
      && notEmpty >= 0 && notFull >= 0 && allNotFull >= 0 && allNotEmpty >= 0
    }
  }

  function Count(pcs: seq<Pc>, pc: Pc): nat {
    if pcs == [] then 0 else Count(pcs[..|pcs| - 1], pc) + One(pcs[|pcs| - 1], pc)
  }

  function TallyOf(pcs: seq<Pc>): (y: Tally)
    ensures y.NonNegative()
  {
    Tally(Count(pcs, PushWaiting), Count(pcs, PushWoken), Count(pcs, PopWaiting), Count(pcs, PopWoken),
          Count(pcs, NotifyNotEmpty), Count(pcs, NotifyNotFull),
          Count(pcs, NotifyAllNotFull), Count(pcs, NotifyAllNotEmpty))
  }

  function One(pc: Pc, place: Pc): nat { if pc == place then 1 else 0 }

  /** The tally after one thread moves. */
  function Moved(y: Tally, from: Pc, to: Pc): Tally {
    Tally(y.pushWaiting - One(from, PushWaiting) + One(to, PushWaiting),
          y.pushWoken - One(from, PushWoken) + One(to, PushWoken),
          y.popWaiting - One(from, PopWaiting) + One(to, PopWaiting),
          y.popWoken - One(from, PopWoken) + One(to, PopWoken),
          y.notEmpty - One(from, NotifyNotEmpty) + One(to, NotifyNotEmpty),
          y.notFull - One(from, NotifyNotFull) + One(to, NotifyNotFull),
          y.allNotFull - One(from, NotifyAllNotFull) + One(to, NotifyAllNotFull),
          y.allNotEmpty - One(from, NotifyAllNotEmpty) + One(to, NotifyAllNotEmpty))
  }

  lemma {:induction false} CountMoved(pcs: seq<Pc>, t: nat, to: Pc, pc: Pc)
    requires t < |pcs|
    ensures Count(pcs[t := to], pc) == Count(pcs, pc) - One(pcs[t], pc) + One(to, pc)
  {
    var init := pcs[..|pcs| - 1];
    if t == |pcs| - 1 {
      assert pcs[t := to][..|pcs| - 1] == init;
    } else {
      assert pcs[t := to][..|pcs| - 1] == init[t := to];
      CountMoved(init, t, to, pc);
    }
  }

  lemma {:induction false} CountPositive(pcs: seq<Pc>, pc: Pc)
    ensures Count(pcs, pc) > 0 <==> pc in pcs
  {
    if pcs == [] {
    } else {
      CountPositive(pcs[..|pcs| - 1], pc);
      assert pcs == pcs[..|pcs| - 1] + [pcs[|pcs| - 1]];
    }
  }

  lemma {:induction false} TallyMoved(pcs: seq<Pc>, t: nat, to: Pc)
    requires t < |pcs|
    ensures TallyOf(pcs[t := to]) == Moved(TallyOf(pcs), pcs[t], to)
  {
    var before, after := TallyOf(pcs), TallyOf(pcs[t := to]);
    var moved := Moved(before, pcs[t], to);
    assert after.pushWaiting == moved.pushWaiting by {
      CountMoved(pcs, t, to, PushWaiting);
    }
    assert after.pushWoken == moved.pushWoken by {
      CountMoved(pcs, t, to, PushWoken);
    }
    assert after.popWaiting == moved.popWaiting by {
      CountMoved(pcs, t, to, PopWaiting);
    }
    assert after.popWoken == moved.popWoken by {
      CountMoved(pcs, t, to, PopWoken);
    }
    assert after.notEmpty == moved.notEmpty by {
      CountMoved(pcs, t, to, NotifyNotEmpty);
    }
    assert after.notFull == moved.notFull by {
      CountMoved(pcs, t, to, NotifyNotFull);
    }
    assert after.allNotFull == moved.allNotFull by {
      CountMoved(pcs, t, to, NotifyAllNotFull);
    }
    assert after.allNotEmpty == moved.allNotEmpty by {
      CountMoved(pcs, t, to, NotifyAllNotEmpty);
    }
  }

  /** While the buffer is open, a waiting consumer means that the queued values
      are covered by notifications still to be sent and consumers already woken;
      waiting producers and free slots likewise. */
  ghost predicate Covered(length: int, capacity: int, y: Tally) {
    && (y.popWaiting > 0 ==> length <= y.notEmpty + y.popWoken)
    && (y.pushWaiting > 0 ==> capacity - length <= y.notFull + y.pushWoken)
  }

  /** Once closed, whoever still waits has a `notify_all` coming. */
  ghost predicate Released(y: Tally) {
    && (y.pushWaiting > 0 ==> y.allNotFull > 0)
    && (y.popWaiting > 0 ==> y.allNotFull + y.allNotEmpty > 0)
  }

  ghost predicate NothingLost(length: int, capacity: int, closed: bool, y: Tally) {
    && (y.allNotFull + y.allNotEmpty > 0 ==> closed)
    && (if closed then Released(y) else Covered(length, capacity, y))
  }

  ghost predicate NoneLost<T>(b: Inner<T>, pcs: seq<Pc>) {
    NothingLost(|b.queue|, b.capacity, b.closed, TallyOf(pcs))
  }

  /** How a push section may move a thread, with the queue length around it. */
  predicate PushMove(from: Pc, to: Pc, length: int, length': int, capacity: int, closed: bool) {
    && InPush(from)
    && match to
       case NotifyNotEmpty => !closed && length' == length + 1
       case PushWaiting => !closed && length' == length == capacity
       case Idle => length' == length && (closed || from == TryPushStart)
       case _ => false
  }

  predicate PopMove(from: Pc, to: Pc, length: int, length': int, closed: bool) {
    && InPop(from)
    && match to
       case NotifyNotFull => length' == length - 1
       case PopWaiting => !closed && length' == length == 0
       case Idle => length' == length && (closed || from == TryPopStart)
       case _ => false
  }

  lemma {:induction false} PushMoveKeepsTally(
      y: Tally, from: Pc, to: Pc, length: int, length': int, capacity: int, closed: bool)
    requires PushMove(from, to, length, length', capacity, closed) && Moved(y, from, to).NonNegative()
    requires NothingLost(length, capacity, closed, y)
    ensures NothingLost(length', capacity, closed, Moved(y, from, to))
  {
  }

  lemma {:induction false} PopMoveKeepsTally(
      y: Tally, from: Pc, to: Pc, length: int, length': int, capacity: int, closed: bool)
    requires PopMove(from, to, length, length', closed) && Moved(y, from, to).NonNegative()
    requires NothingLost(length, capacity, closed, y)
    ensures NothingLost(length', capacity, closed, Moved(y, from, to))
  {
  }

  lemma {:induction false} SectionKeepsTally(
      pcs: seq<Pc>, t: nat, to: Pc, length: int, length': int, capacity: int, closed: bool)
    requires t < |pcs| && NothingLost(length, capacity, closed, TallyOf(pcs))
    requires PushMove(pcs[t], to, length, length', capacity, closed) || PopMove(pcs[t], to, length, length', closed)
    ensures NothingLost(length', capacity, closed, TallyOf(pcs[t := to]))
  {
    TallyMoved(pcs, t, to);
    if PushMove(pcs[t], to, length, length', capacity, closed) {
      PushMoveKeepsTally(TallyOf(pcs), pcs[t], to, length, length', capacity, closed);
    } else {
      PopMoveKeepsTally(TallyOf(pcs), pcs[t], to, length, length', capacity, closed);
    }
  }

  lemma {:induction false} PushMoves<T>(s: State<T>, t: nat) returns (to: Pc)
    requires t < |s.pcs| == |s.args| && InPush(s.pcs[t])
    ensures var s' := AfterPush(s, t);
      && s'.pcs == s.pcs[t := to]
      && s'.buffer.capacity == s.buffer.capacity && s'.buffer.closed == s.buffer.closed
      && PushMove(s.pcs[t], to, |s.buffer.queue|, |s'.buffer.queue|, s.buffer.capacity, s.buffer.closed)
  {
    to := AfterPush(s, t).pcs[t];
  }

  lemma {:induction false} PopMoves<T>(s: State<T>, t: nat) returns (to: Pc)
    requires t < |s.pcs| == |s.args| && InPop(s.pcs[t])
    ensures var s' := AfterPop(s, t);
      && s'.pcs == s.pcs[t := to]
      && s'.buffer.capacity == s.buffer.capacity && s'.buffer.closed == s.buffer.closed
      && PopMove(s.pcs[t], to, |s.buffer.queue|, |s'.buffer.queue|, s.buffer.closed)
  {
    to := AfterPop(s, t).pcs[t];
  }

  lemma {:induction false} SectionKeepsWakeups<T>(s: State<T>, a: Action<T>)
    requires Enabled(s, a) && a.Advance? && NoneLost(s.buffer, s.pcs)
    requires InPush(s.pcs[a.thread]) || InPop(s.pcs[a.thread])
    ensures NoneLost(Step(s, a).buffer, Step(s, a).pcs)
  {
    var to;
    if InPush(s.pcs[a.thread]) {
      to := PushMoves(s, a.thread);
    } else {
      to := PopMoves(s, a.thread);
    }
    SectionKeepsTally(s.pcs, a.thread, to, |s.buffer.queue|, |Step(s, a).buffer.queue|,
                      s.buffer.capacity, s.buffer.closed);
  }

  /** Starting a call and waking spuriously move one thread and nothing else. */
  lemma {:induction false} CallMoveKeepsTally(y: Tally, from: Pc, to: Pc, length: int, capacity: int, closed: bool)
    requires Moved(y, from, to).NonNegative() && NothingLost(length, capacity, closed, y)
    requires (from == Idle && IsStart(to)) || ((from == PushWaiting || from == PopWaiting) && to == Woken(from))
    ensures NothingLost(length, capacity, closed, Moved(y, from, to))
  {
  }

  lemma {:induction false} CallKeepsWakeups(pcs: seq<Pc>, t: nat, to: Pc, length: int, capacity: int, closed: bool)
    requires t < |pcs| && NothingLost(length, capacity, closed, TallyOf(pcs))
    requires (pcs[t] == Idle && IsStart(to))
      || ((pcs[t] == PushWaiting || pcs[t] == PopWaiting) && to == Woken(pcs[t]))
    ensures NothingLost(length, capacity, closed, TallyOf(pcs[t := to]))
  {
    TallyMoved(pcs, t, to);
    CallMoveKeepsTally(TallyOf(pcs), pcs[t], to, length, capacity, closed);
  }

  lemma {:induction false} CloseKeepsTally(pcs: seq<Pc>, t: nat, length: int, capacity: int, closed: bool)
    requires t < |pcs| && pcs[t] == CloseStart
    requires NothingLost(length, capacity, closed, TallyOf(pcs))
    ensures NothingLost(length, capacity, true, TallyOf(pcs[t := NotifyAllNotFull]))
  {
    TallyMoved(pcs, t, NotifyAllNotFull);
  }

  /** A `notify_one` finds nobody, or moves one waiter to the woken. */
  lemma {:induction false} NotifyKeepsTally(
      pcs: seq<Pc>, t: nat, woken: Option<nat>, length: int, capacity: int, closed: bool)
    requires t < |pcs| && NotifiedBy(pcs[t]).Some?
    requires if NotifiedBy(pcs[t]).value in pcs
             then woken.Some? && woken.value < |pcs| && pcs[woken.value] == NotifiedBy(pcs[t]).value
             else woken.None?
    requires NothingLost(length, capacity, closed, TallyOf(pcs))
    ensures NothingLost(length, capacity, closed, TallyOf(AfterNotify(pcs, t, woken)))
  {
    var waiting := NotifiedBy(pcs[t]).value;
    TallyMoved(pcs, t, Idle);
    CountPositive(pcs, waiting);
    if woken.Some? {
      TallyMoved(pcs[t := Idle], woken.value, Woken(waiting));
    }
  }

  lemma {:induction false} AfterWakeAll(pcs: seq<Pc>, t: nat, waiting: Pc, next: Pc)
    requires t < |pcs| && next != waiting && Woken(waiting) != waiting
    ensures waiting !in WakeAll(pcs, waiting)[t := next] && next in WakeAll(pcs, waiting)[t := next]
  {
    var pcs' := WakeAll(pcs, waiting)[t := next];
    assert pcs'[t] == next;
    forall i | 0 <= i < |pcs'| ensures pcs'[i] != waiting {
      assert pcs'[i] == if i == t then next else WakeAll(pcs, waiting)[i];
    }
  }

  lemma {:induction false} ReleasedByNotifyAll(pcs: seq<Pc>)
    requires PushWaiting !in pcs && NotifyAllNotEmpty in pcs
    ensures Released(TallyOf(pcs))
  {
    CountPositive(pcs, PushWaiting);
    CountPositive(pcs, NotifyAllNotEmpty);
  }

  lemma {:induction false} NotifyAllNotEmptyKeepsTally(pcs: seq<Pc>, t: nat)
    requires t < |pcs| && pcs[t] == NotifyAllNotEmpty && Released(TallyOf(pcs))
    ensures Released(TallyOf(WakeAll(pcs, PopWaiting)[t := Idle]))
  {
    var pcs' := WakeAll(pcs, PopWaiting)[t := Idle];
    AfterWakeAll(pcs, t, PopWaiting, Idle);
    CountPositive(pcs', PopWaiting);
    CountPositive(pcs', PushWaiting);
    CountPositive(pcs', NotifyAllNotFull);
    CountPositive(pcs, PushWaiting);
    CountPositive(pcs, NotifyAllNotFull);
    if PushWaiting in pcs' {
      var i :| 0 <= i < |pcs'| && pcs'[i] == PushWaiting;
      assert pcs[i] in pcs;
      var j :| 0 <= j < |pcs| && pcs[j] == NotifyAllNotFull;
      assert pcs'[j] in pcs';
    }
  }

  lemma {:induction false} NotifyAllKeepsTally(pcs: seq<Pc>, t: nat, length: int, capacity: int, closed: bool)
    requires t < |pcs| && NothingLost(length, capacity, closed, TallyOf(pcs))
    ensures pcs[t] == NotifyAllNotFull ==>
      NothingLost(length, capacity, closed, TallyOf(WakeAll(pcs, PushWaiting)[t := NotifyAllNotEmpty]))
    ensures pcs[t] == NotifyAllNotEmpty ==>
      NothingLost(length, capacity, closed, TallyOf(WakeAll(pcs, PopWaiting)[t := Idle]))
  {
    CountPositive(pcs, pcs[t]);
    if pcs[t] == NotifyAllNotFull {
      AfterWakeAll(pcs, t, PushWaiting, NotifyAllNotEmpty);
      ReleasedByNotifyAll(WakeAll(pcs, PushWaiting)[t := NotifyAllNotEmpty]);
    } else if pcs[t] == NotifyAllNotEmpty {
      NotifyAllNotEmptyKeepsTally(pcs, t);
    }
  }

  lemma {:induction false} SignalKeepsWakeups<T>(s: State<T>, a: Action<T>)
    requires Enabled(s, a) && a.Advance? && NoneLost(s.buffer, s.pcs)
    requires !InPush(s.pcs[a.thread]) && !InPop(s.pcs[a.thread])
    ensures NoneLost(Step(s, a).buffer, Step(s, a).pcs)
  {
    var t, b := a.thread, s.buffer;
    if s.pcs[t] == CloseStart {
      CloseKeepsTally(s.pcs, t, |b.queue|, b.capacity, b.closed);
    } else if NotifiedBy(s.pcs[t]).Some? {
      NotifyKeepsTally(s.pcs, t, a.woken, |b.queue|, b.capacity, b.closed);
    } else {
      NotifyAllKeepsTally(s.pcs, t, |b.queue|, b.capacity, b.closed);
    }
  }

  lemma {:induction false} StepKeepsWakeups<T>(s: State<T>, a: Action<T>)
    requires Enabled(s, a) && NoneLost(s.buffer, s.pcs)
    ensures NoneLost(Step(s, a).buffer, Step(s, a).pcs)
  {
    if !a.Advance? {
      CallKeepsWakeups(s.pcs, a.thread, Step(s, a).pcs[a.thread],
                       |s.buffer.queue|, s.buffer.capacity, s.buffer.closed);
    } else if InPush(s.pcs[a.thread]) || InPop(s.pcs[a.thread]) {
      SectionKeepsWakeups(s, a);
    } else {
      SignalKeepsWakeups(s, a);
    }
  }

  lemma {:induction false} RunKeepsWakeups<T>(s: State<T>, run: seq<Action<T>>)
    requires ValidRun(s, run) && NoneLost(s.buffer, s.pcs)
    ensures NoneLost(Run(s, run).buffer, Run(s, run).pcs)
    decreases |run|
  {
    if run == [] {
    } else {
      StepKeepsWakeups(s, run[0]);
      RunKeepsWakeups(Step(s, run[0]), run[1..]);
    }
  }

  /** Nothing is left to run: every thread is between calls or waiting. */
  predicate Quiescent<T>(s: State<T>) {
    forall i :: 0 <= i < |s.pcs| ==> IsParked(s.pcs[i])
  }

  lemma {:induction false} InitialTally<T>(capacity: nat, args: seq<T>)
    ensures NoneLost(Initial(capacity, args).buffer, Initial(capacity, args).pcs)
  {
    var pcs := Initial(capacity, args).pcs;
    CountPositive(pcs, PushWaiting);
    CountPositive(pcs, PopWaiting);
    CountPositive(pcs, NotifyAllNotFull);
    CountPositive(pcs, NotifyAllNotEmpty);
  }

  /** No lost wakeup: when nothing is left to run, consumers wait only on an
      empty open buffer, producers only on a full open one, never both, and
      nobody waits once the buffer is closed. */
  lemma {:induction false} NoLostWakeup<T>(capacity: nat, args: seq<T>, run: seq<Action<T>>)
    requires capacity > 0 && ValidRun(Initial(capacity, args), run)
    requires Quiescent(Run(Initial(capacity, args), run))
    ensures var s := Run(Initial(capacity, args), run);
      && (PopWaiting in s.pcs ==> s.buffer.queue == [] && !s.buffer.closed)
      && (PushWaiting in s.pcs ==> |s.buffer.queue| == capacity && !s.buffer.closed)
      && !(PopWaiting in s.pcs && PushWaiting in s.pcs)
  {
    InitialTally(capacity, args);
    RunKeepsWakeups(Initial(capacity, args), run);
    RunKeepsFifo(Initial(capacity, args), run);
    var s := Run(Initial(capacity, args), run);
    forall pc ensures Count(s.pcs, pc) > 0 <==> pc in s.pcs {
      CountPositive(s.pcs, pc);
    }
    assert forall pc :: pc in s.pcs ==> IsParked(pc);
  }

  // ---------------------------------------------------------------------------
  // What a call of close, try_push or try_pop does
  // ---------------------------------------------------------------------------

  lemma {:induction false} StepKeepsThreads<T>(s: State<T>, a: Action<T>)
    requires Enabled(s, a)
    ensures |Step(s, a).pcs| == |s.pcs|
  {
  }

  /** A thread stands at the start of close until it has closed the buffer. */
  lemma {:induction false} StepCloses<T>(s: State<T>, a: Action<T>, t: nat)
    requires Enabled(s, a) && t < |s.pcs| && |Step(s, a).pcs| == |s.pcs|
    requires s.pcs[t] == CloseStart || s.buffer.closed
    ensures Step(s, a).pcs[t] == CloseStart || Step(s, a).buffer.closed
  {
    if s.buffer.closed {
    } else if a.thread != t {
      OthersLeaveIt(s, a, t);
    }
  }

  /** A step of another thread moves one that is not waiting nowhere. */
  lemma {:induction false} OthersLeaveIt<T>(s: State<T>, a: Action<T>, t: nat)
    requires Enabled(s, a) && t < |s.pcs| && t != a.thread && |Step(s, a).pcs| == |s.pcs|
    requires s.pcs[t] != PushWaiting && s.pcs[t] != PopWaiting
    ensures Step(s, a).pcs[t] == s.pcs[t]
  {
  }

  /** A thread that set out to close has closed the buffer by the time it moves on, and
      the buffer stays closed. */
  lemma {:induction false} CloseCloses<T>(s: State<T>, run: seq<Action<T>>, t: nat)
    requires ValidRun(s, run) && t < |s.pcs| && (s.pcs[t] == CloseStart || s.buffer.closed)
    ensures |Run(s, run).pcs| == |s.pcs|
    ensures Run(s, run).pcs[t] == CloseStart || Run(s, run).buffer.closed
    decreases |run|
  {
    if run == [] {
    } else {
      StepKeepsThreads(s, run[0]);
      StepCloses(s, run[0], t);
      CloseCloses(Step(s, run[0]), run[1..], t);
    }
  }

  lemma {:induction false} RunSplit<T>(s: State<T>, run: seq<Action<T>>, n: nat)
    requires ValidRun(s, run) && n <= |run|
    ensures ValidRun(s, run[..n]) && ValidRun(Run(s, run[..n]), run[n..])
    ensures Run(Run(s, run[..n]), run[n..]) == Run(s, run)
    decreases |run|
  {
    if n == 0 {
      assert run[0..] == run;
    } else {
      RunSplit(Step(s, run[0]), run[1..], n - 1);
      assert run[..n][1..] == run[1..][..n - 1] && run[n..] == run[1..][n - 1..];
    }
  }

  /** A run in which close was called ends, once nothing is left to run, with a closed
      buffer and nobody waiting. */
  lemma {:induction false} CloseReleasesEverybody<T>(
      capacity: nat, args: seq<T>, run: seq<Action<T>>, n: nat, t: nat, v: T)
    requires capacity > 0 && ValidRun(Initial(capacity, args), run) && Quiescent(Run(Initial(capacity, args), run))
    requires n < |run| && run[n] == Call(t, CloseStart, v)
    ensures var s := Run(Initial(capacity, args), run);
      s.buffer.closed && PushWaiting !in s.pcs && PopWaiting !in s.pcs
  {
    RunSplit(Initial(capacity, args), run, n);
    var s := Run(Initial(capacity, args), run[..n]);
    assert run[n..][0] == run[n];
    var called := Step(s, run[n]);
    CloseCloses(called, run[n..][1..], t);
    NoLostWakeup(capacity, args, run);
  }

  predicate InTryPush(pc: Pc) { pc == TryPushStart || pc == NotifyNotEmpty || pc == Idle }

  predicate InTryPop(pc: Pc) { pc == TryPopStart || pc == NotifyNotFull || pc == Idle }

  predicate CallsNothing<T>(run: seq<Action<T>>, t: nat) {
    forall i :: 0 <= i < |run| ==> !(run[i].Call? && run[i].thread == t)
  }

  /** A thread that called try_push or try_pop never waits before its next call. */
  lemma {:induction false} TryNeverWaits<T>(s: State<T>, run: seq<Action<T>>, t: nat)
    requires ValidRun(s, run) && t < |s.pcs| && CallsNothing(run, t)
    ensures |Run(s, run).pcs| == |s.pcs|
    ensures InTryPush(s.pcs[t]) ==> InTryPush(Run(s, run).pcs[t])
    ensures InTryPop(s.pcs[t]) ==> InTryPop(Run(s, run).pcs[t])
    decreases |run|
  {
    if run == [] {
    } else {
      TryStepNeverWaits(s, run[0], t);
      TryNeverWaits(Step(s, run[0]), run[1..], t);
    }
  }

  lemma {:induction false} TryStepNeverWaits<T>(s: State<T>, a: Action<T>, t: nat)
    requires Enabled(s, a) && t < |s.pcs| && !(a.Call? && a.thread == t)
    ensures |Step(s, a).pcs| == |s.pcs|
    ensures InTryPush(s.pcs[t]) ==> InTryPush(Step(s, a).pcs[t])
    ensures InTryPop(s.pcs[t]) ==> InTryPop(Step(s, a).pcs[t])
  {
    StepKeepsThreads(s, a);
    if a.thread != t && (InTryPush(s.pcs[t]) || InTryPop(s.pcs[t])) {
      OthersLeaveIt(s, a, t);
    }
  }

  // ---------------------------------------------------------------------------
  // Every started call returns or parks
  // ---------------------------------------------------------------------------

  /** Steps a thread at `pc` can still cause among n threads without a new call. */
  function Weight(pc: Pc, n: nat): nat {
    match pc
    case Idle => 0
    case NotifyNotEmpty => 2
    case NotifyNotFull => 2
    case PushWaiting => 3
    case PopWaiting => 3
    case PushWoken => 4
    case PopWoken => 4
    case NotifyAllNotEmpty => n + 1
    case NotifyAllNotFull => 2 * n + 2
    case CloseStart => 2 * n + 3
    case _ => 5
  }

  function Work(pcs: seq<Pc>, n: nat): nat {
    if pcs == [] then 0 else Weight(pcs[0], n) + Work(pcs[1..], n)
  }

  lemma {:induction false} WorkUpdate(pcs: seq<Pc>, n: nat, t: nat, pc: Pc)
    requires t < |pcs|
    ensures Work(pcs[t := pc], n) == Work(pcs, n) - Weight(pcs[t], n) + Weight(pc, n)
  {
    if t == 0 {
      assert pcs[t := pc][1..] == pcs[1..];
    } else {
      assert pcs[t := pc][1..] == pcs[1..][t - 1 := pc];
      WorkUpdate(pcs[1..], n, t - 1, pc);
    }
  }

  lemma {:induction false} WorkWakeAll(pcs: seq<Pc>, n: nat, waiting: Pc)
    requires waiting == PushWaiting || waiting == PopWaiting
    ensures Work(WakeAll(pcs, waiting), n) <= Work(pcs, n) + |pcs|
  {
    if pcs == [] {
    } else {
      WorkWakeAll(pcs[1..], n, waiting);
      assert WakeAll(pcs, waiting)[1..] == WakeAll(pcs[1..], waiting);
    }
  }

  lemma {:induction false} NotifyUsesWork(pcs: seq<Pc>, t: nat, woken: Option<nat>)
    requires t < |pcs| && NotifiedBy(pcs[t]).Some?
    requires woken.Some? ==> woken.value < |pcs| && pcs[woken.value] == NotifiedBy(pcs[t]).value
    ensures Work(AfterNotify(pcs, t, woken), |pcs|) < Work(pcs, |pcs|)
  {
    WorkUpdate(pcs, |pcs|, t, Idle);
    if woken.Some? {
      WorkUpdate(pcs[t := Idle], |pcs|, woken.value, Woken(pcs[woken.value]));
    }
  }

  lemma {:induction false} NotifyAllUsesWork(pcs: seq<Pc>, t: nat, waiting: Pc, next: Pc)
    requires t < |pcs|
    requires || (pcs[t] == NotifyAllNotFull && waiting == PushWaiting && next == NotifyAllNotEmpty)
             || (pcs[t] == NotifyAllNotEmpty && waiting == PopWaiting && next == Idle)
    ensures Work(WakeAll(pcs, waiting)[t := next], |pcs|) < Work(pcs, |pcs|)
  {
    WorkWakeAll(pcs, |pcs|, waiting);
    WorkUpdate(WakeAll(pcs, waiting), |pcs|, t, next);
  }

  lemma {:induction false} SectionUsesWork<T>(s: State<T>, a: Action<T>)
    requires Enabled(s, a) && a.Advance? && NotifiedBy(s.pcs[a.thread]).None?
    requires s.pcs[a.thread] != NotifyAllNotFull && s.pcs[a.thread] != NotifyAllNotEmpty
    ensures Work(Step(s, a).pcs, |s.pcs|) < Work(s.pcs, |s.pcs|)
  {
    var t := a.thread;
    var to := Step(s, a).pcs[t];
    assert Step(s, a).pcs == s.pcs[t := to];
    assert Weight(to, |s.pcs|) < Weight(s.pcs[t], |s.pcs|);
    WorkUpdate(s.pcs, |s.pcs|, t, to);
  }

  /** Every step of a running thread uses up some of the remaining work. */
  lemma {:induction false} AdvanceUsesWork<T>(s: State<T>, a: Action<T>)
    requires Enabled(s, a) && a.Advance?
    ensures Work(Step(s, a).pcs, |s.pcs|) < Work(s.pcs, |s.pcs|)
  {
    var t := a.thread;
    if s.pcs[t] == NotifyAllNotFull {
      NotifyAllUsesWork(s.pcs, t, PushWaiting, NotifyAllNotEmpty);
    } else if s.pcs[t] == NotifyAllNotEmpty {
      NotifyAllUsesWork(s.pcs, t, PopWaiting, Idle);
    } else if NotifiedBy(s.pcs[t]).Some? {
      NotifyUsesWork(s.pcs, t, a.woken);
    } else {
      SectionUsesWork(s, a);
    }
  }

  /** A new call brings at most a close's work; a spurious wakeup one step. */
  lemma {:induction false} CallAddsWork<T>(s: State<T>, a: Action<T>)
    requires Enabled(s, a) && !a.Advance?
    ensures |Step(s, a).pcs| == |s.pcs|
    ensures a.Call? ==> Work(Step(s, a).pcs, |s.pcs|) <= Work(s.pcs, |s.pcs|) + 2 * |s.pcs| + 3
    ensures a.Spurious? ==> Work(Step(s, a).pcs, |s.pcs|) == Work(s.pcs, |s.pcs|) + 1
  {
    WorkUpdate(s.pcs, |s.pcs|, a.thread, Step(s, a).pcs[a.thread]);
  }

  function Calls<T>(run: seq<Action<T>>): nat {
    if run == [] then 0 else (if run[0].Call? then 1 else 0) + Calls(run[1..])
  }

  function SpuriousWakeups<T>(run: seq<Action<T>>): nat {
    if run == [] then 0 else (if run[0].Spurious? then 1 else 0) + SpuriousWakeups(run[1..])
  }

  /** Steps that this many calls and spurious wakeups account for among n threads. */
  function Allowance(calls: nat, spurious: nat, n: nat): nat {
    calls * (2 * n + 4) + 2 * spurious
  }

  lemma {:induction false} AllowanceOfOne(calls: nat, spurious: nat, n: nat)
    ensures Allowance(calls + 1, spurious, n) == Allowance(calls, spurious, n) + 2 * n + 4
    ensures Allowance(calls, spurious + 1, n) == Allowance(calls, spurious, n) + 2
  {
    assert (calls + 1) * (2 * n + 4) == calls * (2 * n + 4) + (2 * n + 4);
  }

  /** Only new calls and spurious wakeups prolong a schedule, each by a bounded
      number of steps; without them none is longer than the work at its start. */
  lemma {:induction false} SchedulesAreBounded<T>(s: State<T>, run: seq<Action<T>>)
    requires ValidRun(s, run)
    ensures |run| <= Work(s.pcs, |s.pcs|) + Allowance(Calls(run), SpuriousWakeups(run), |s.pcs|)
    decreases |run|
  {
    if run == [] {
    } else {
      var next, n := Step(s, run[0]), |s.pcs|;
      var calls, spurious := Calls(run[1..]), SpuriousWakeups(run[1..]);
      AllowanceOfOne(calls, spurious, n);
      StepKeepsThreads(s, run[0]);
      if run[0].Advance? {
        AdvanceUsesWork(s, run[0]);
      } else {
        CallAddsWork(s, run[0]);
      }
      SchedulesAreBounded(next, run[1..]);
    }
  }

  /** A thread that is neither idle nor waiting can always take a step: the
      system never gets stuck short of quiescence. */
  lemma {:induction false} RunningThreadsCanStep<T>(s: State<T>) returns (a: Action<T>)
    requires |s.args| == |s.pcs| && !Quiescent(s)
    ensures Enabled(s, a) && a.Advance?
  {
    var t :| 0 <= t < |s.pcs| && !IsParked(s.pcs[t]);
    var from := NotifiedBy(s.pcs[t]);
    if from.Some? && from.value in s.pcs {
      var w :| 0 <= w < |s.pcs| && s.pcs[w] == from.value;
      a := Advance(t, Some(w));
    } else {
      a := Advance(t, None);
    }
  }
}
