/** Workers that pop their own deque and steal from the others until they find
    nothing. Nobody pushes once the workers run. */
module WorkStealing {
  import opened Options
  import opened Sums

  type Task = nat

  /** Where a worker stands: about to pop its own deque, about to steal from
      `victim`, holding a task, or gone. */
  datatype Pc = Popping | Stealing(victim: nat) | Holding(task: Task) | Exited

  /** `done` lists the tasks in the order in which they were counted. */
  datatype State = State(deques: seq<seq<Task>>, pcs: seq<Pc>, processed: seq<nat>, done: seq<Task>)

  /** One step of a worker. A steal may fail with Retry even when the victim has tasks. */
  datatype Action = Advance(worker: nat) | Retry(worker: nat)

  predicate Shaped(s: State) {
    |s.deques| == |s.pcs| == |s.processed|
  }

  predicate Enabled(s: State, a: Action) {
    && Shaped(s) && a.worker < |s.pcs|
    && match a
       case Advance(w) => s.pcs[w] != Exited
       case Retry(w) => s.pcs[w].Stealing? && s.pcs[w].victim < |s.deques| && s.pcs[w].victim != w
  }

  /** Worker w takes the oldest task of deque v. */
  function Take(s: State, w: nat, v: nat): State
    requires Shaped(s) && w < |s.pcs| && v < |s.deques| && s.deques[v] != []
  {
    s.(deques := s.deques[v := s.deques[v][1..]], pcs := s.pcs[w := Holding(s.deques[v][0])])
  }

  function Step(s: State, a: Action): State
    requires Enabled(s, a)
  {
    var w := a.worker;
    if a.Retry? then s.(pcs := s.pcs[w := Popping]) else
    match s.pcs[w]
    case Popping =>
      if s.deques[w] == [] then s.(pcs := s.pcs[w := Stealing(0)])
      else Take(s, w, w)
    case Stealing(v) =>
      if v >= |s.deques| then s.(pcs := s.pcs[w := Exited])
      else if v == w || s.deques[v] == [] then s.(pcs := s.pcs[w := Stealing(v + 1)])
      else Take(s, w, v)
    case Holding(task) =>
      s.(pcs := s.pcs[w := Popping],
         processed := s.processed[w := s.processed[w] + 1],
         done := s.done + [task])
    case Exited => s
  }

  /** Any placement of the tasks on the workers' deques. */
  function Initial(deques: seq<seq<Task>>): State {
    State(deques, seq(|deques|, _ => Popping), seq(|deques|, _ => 0), [])
  }

  predicate ValidRun(s: State, run: seq<Action>)
    decreases |run|
  {
    run == [] || (Enabled(s, run[0]) && ValidRun(Step(s, run[0]), run[1..]))
  }

  function Run(s: State, run: seq<Action>): State
    requires ValidRun(s, run)
    decreases |run|
  {
    if run == [] then s else Run(Step(s, run[0]), run[1..])
  }

  /** The shared deques and counters, updated in place by the worker whose turn it is. */
  class Pool {
    var deques: seq<seq<Task>>
    var pcs: seq<Pc>
    var processed: seq<nat>
    var done: seq<Task>

    ghost function Contents(): State
      reads this
    {
      State(deques, pcs, processed, done)
    }

    constructor (tasks: seq<seq<Task>>)
      ensures Contents() == Initial(tasks)
    {
      deques, pcs := tasks, seq(|tasks|, _ => Popping);
      processed, done := seq(|tasks|, _ => 0), [];
    }

    /** Worker w takes one step; `retry` is the outcome of the steal when it loses a race. */
    method Turn(w: nat, retry: bool)
      requires Enabled(Contents(), if retry then Retry(w) else Advance(w))
      modifies this
      ensures Contents() == Step(old(Contents()), if retry then Retry(w) else Advance(w))
    {
      if retry {
        pcs := pcs[w := Popping];
        return;
      }
      match pcs[w]
      case Popping =>
        if deques[w] == [] {
          pcs := pcs[w := Stealing(0)];
        } else {
          TakeFrom(w, w);
        }
      case Stealing(v) =>
        if v >= |deques| {
          pcs := pcs[w := Exited];
        } else if v == w || deques[v] == [] {
          pcs := pcs[w := Stealing(v + 1)];
        } else {
          TakeFrom(w, v);
        }
      case Holding(task) =>
        processed := processed[w := processed[w] + 1];
        done := done + [task];
        pcs := pcs[w := Popping];
      case Exited =>
    }

    method TakeFrom(w: nat, v: nat)
      requires Shaped(Contents()) && w < |pcs| && v < |deques| && deques[v] != []
      modifies this
      ensures Contents() == Take(old(Contents()), w, v)
    {
      pcs := pcs[w := Holding(deques[v][0])];
      deques := deques[v := deques[v][1..]];
    }
  }

  // ---------------------------------------------------------------------------
  // Conservation of tasks
  // ---------------------------------------------------------------------------

  /** How often `which` occurs in d; None counts every task. */
  function Count(d: seq<Task>, which: Option<Task>): nat {
    if d == [] then 0 else One(d[0], which) + Count(d[1..], which)
  }

  function One(task: Task, which: Option<Task>): nat {
    if which == None || which == Some(task) then 1 else 0
  }

  function InHand(pc: Pc, which: Option<Task>): nat {
    if pc.Holding? then One(pc.task, which) else 0
  }

  function QueueCounts(deques: seq<seq<Task>>, which: Option<Task>): seq<nat> {
    seq(|deques|, i requires 0 <= i < |deques| => Count(deques[i], which))
  }

  function Queued(deques: seq<seq<Task>>, which: Option<Task>): nat {
    Sum(QueueCounts(deques, which))
  }

  function HandCounts(pcs: seq<Pc>, which: Option<Task>): seq<nat> {
    seq(|pcs|, i requires 0 <= i < |pcs| => InHand(pcs[i], which))
  }

  function Held(pcs: seq<Pc>, which: Option<Task>): nat {
    Sum(HandCounts(pcs, which))
  }

  lemma {:induction false} CountAppend(d: seq<Task>, task: Task, which: Option<Task>)
    ensures Count(d + [task], which) == Count(d, which) + One(task, which)
  {
    if d == [] {
    } else {
      assert (d + [task])[1..] == d[1..] + [task];
      CountAppend(d[1..], task, which);
    }
  }

  lemma {:induction false} CountAll(d: seq<Task>)
    ensures Count(d, None) == |d|
  {
    if d == [] {
    } else {
      CountAll(d[1..]);
    }
  }

  lemma {:induction false} CountIsMultiplicity(d: seq<Task>, task: Task)
    ensures Count(d, Some(task)) == multiset(d)[task]
  {
    if d == [] {
    } else {
      CountIsMultiplicity(d[1..], task);
      assert d == [d[0]] + d[1..];
    }
  }

  lemma {:induction false} QueuedUpdate(deques: seq<seq<Task>>, v: nat, d: seq<Task>, which: Option<Task>)
    requires v < |deques|
    ensures Queued(deques[v := d], which) + Count(deques[v], which) == Queued(deques, which) + Count(d, which)
  {
    assert QueueCounts(deques[v := d], which) == QueueCounts(deques, which)[v := Count(d, which)];
    SumUpdate(QueueCounts(deques, which), v, Count(d, which));
  }

  lemma {:induction false} HeldUpdate(pcs: seq<Pc>, w: nat, pc: Pc, which: Option<Task>)
    requires w < |pcs|
    ensures Held(pcs[w := pc], which) + InHand(pcs[w], which) == Held(pcs, which) + InHand(pc, which)
  {
    assert HandCounts(pcs[w := pc], which) == HandCounts(pcs, which)[w := InHand(pc, which)];
    SumUpdate(HandCounts(pcs, which), w, InHand(pc, which));
  }

  /** Tasks of one kind that are queued, in a worker's hands or done. */
  function Tally(s: State, which: Option<Task>): nat {
    Queued(s.deques, which) + Held(s.pcs, which) + Count(s.done, which)
  }

  lemma {:induction false} TakeKeepsTally(s: State, w: nat, v: nat, which: Option<Task>)
    requires Shaped(s) && w < |s.pcs| && v < |s.deques| && s.deques[v] != []
    requires !s.pcs[w].Holding?
    ensures Tally(Take(s, w, v), which) == Tally(s, which)
  {
    QueuedUpdate(s.deques, v, s.deques[v][1..], which);
    HeldUpdate(s.pcs, w, Holding(s.deques[v][0]), which);
  }

  /** No step loses, copies or invents a task. */
  lemma {:induction false} StepKeepsTally(s: State, a: Action, which: Option<Task>)
    requires Enabled(s, a)
    ensures Tally(Step(s, a), which) == Tally(s, which)
  {
    var w := a.worker;
    if a.Advance? && s.pcs[w].Holding? {
      HeldUpdate(s.pcs, w, Popping, which);
      CountAppend(s.done, s.pcs[w].task, which);
    } else if Step(s, a).pcs[w].Holding? {
      TakeKeepsTally(s, w, if s.pcs[w].Popping? then w else s.pcs[w].victim, which);
    } else {
      HeldUpdate(s.pcs, w, Step(s, a).pcs[w], which);
    }
  }

  /** The counters count the tasks done, and a worker that went stealing or left
      has an empty deque for good. */
  predicate Inv(s: State) {
    && Shaped(s)
    && Sum(s.processed) == |s.done|
    && forall w :: 0 <= w < |s.pcs| && (s.pcs[w].Stealing? || s.pcs[w].Exited?) ==> s.deques[w] == []
  }

  lemma {:induction false} StepKeepsInv(s: State, a: Action)
    requires Enabled(s, a) && Inv(s)
    ensures Inv(Step(s, a)) && |Step(s, a).pcs| == |s.pcs|
  {
    SumUpdate(s.processed, a.worker, s.processed[a.worker] + 1);
  }

  lemma {:induction false} RunKeeps(s: State, run: seq<Action>, which: Option<Task>)
    requires ValidRun(s, run) && Inv(s)
    ensures Inv(Run(s, run)) && |Run(s, run).pcs| == |s.pcs|
    ensures Tally(Run(s, run), which) == Tally(s, which)
    decreases |run|
  {
    if run == [] {
    } else {
      StepKeepsInv(s, run[0]);
      StepKeepsTally(s, run[0], which);
      RunKeeps(Step(s, run[0]), run[1..], which);
    }
  }

  predicate AllExited(s: State) {
    forall w :: 0 <= w < |s.pcs| ==> s.pcs[w] == Exited
  }

  lemma {:induction false} TallyWhenDone(s: State, which: Option<Task>)
    requires Inv(s) && AllExited(s)
    ensures Tally(s, which) == Count(s.done, which)
  {
    assert forall w :: 0 <= w < |s.pcs| ==> s.deques[w] == [];
    SumZero(QueueCounts(s.deques, which));
    SumZero(HandCounts(s.pcs, which));
  }

  lemma {:induction false} TallyAtStart(deques: seq<seq<Task>>, which: Option<Task>)
    ensures Inv(Initial(deques)) && Tally(Initial(deques), which) == Queued(deques, which)
  {
    var s := Initial(deques);
    SumZero(s.processed);
    SumZero(HandCounts(s.pcs, which));
  }

  /** When all workers have left, every initial task has been processed exactly
      once and the counters add up to the number of tasks: for any number of
      workers, any placement of the tasks and any schedule of pops, steals and
      retries. */
  lemma {:induction false} EveryTaskOnce(deques: seq<seq<Task>>, run: seq<Action>)
    requires ValidRun(Initial(deques), run) && AllExited(Run(Initial(deques), run))
    ensures var s := Run(Initial(deques), run);
      && (forall task :: multiset(s.done)[task] == Queued(deques, Some(task)))
      && Sum(s.processed) == |s.done| == Queued(deques, None)
  {
    var s := Run(Initial(deques), run);
    forall which
      ensures Inv(s) && Count(s.done, which) == Queued(deques, which)
    {
      TallyAtStart(deques, which);
      RunKeeps(Initial(deques), run, which);
      TallyWhenDone(s, which);
    }
    CountAll(s.done);
    forall task
      ensures multiset(s.done)[task] == Queued(deques, Some(task))
    {
      CountIsMultiplicity(s.done, task);
    }
  }

  // ---------------------------------------------------------------------------
  // Who takes what
  // ---------------------------------------------------------------------------

  /** A worker about to steal from v has found its own deque and those before v empty,
      and a worker that left has found all of them empty; nothing fills them again. */
  predicate LookedEverywhere(s: State) {
    && Shaped(s)
    && (forall w, u :: 0 <= w < |s.pcs| && 0 <= u < |s.deques| && s.pcs[w].Stealing? && (u < s.pcs[w].victim || u == w)
          ==> s.deques[u] == [])
    && (forall w, u :: 0 <= w < |s.pcs| && 0 <= u < |s.deques| && s.pcs[w].Exited? ==> s.deques[u] == [])
  }

  lemma {:induction false} StepKeepsLooked(s: State, a: Action)
    requires Enabled(s, a) && LookedEverywhere(s)
    ensures LookedEverywhere(Step(s, a))
  {
    var w, s' := a.worker, Step(s, a);
    forall u | 0 <= u < |s.deques| && s.deques[u] == []
      ensures s'.deques[u] == []
    {
    }
    forall x | 0 <= x < |s.pcs| && x != w
      ensures s'.pcs[x] == s.pcs[x]
    {
    }
  }

  /** In every run a worker leaves only once every deque is empty. */
  lemma {:induction false} NobodyLeavesWork(s: State, run: seq<Action>)
    requires ValidRun(s, run) && LookedEverywhere(s)
    ensures LookedEverywhere(Run(s, run))
    decreases |run|
  {
    if run == [] {
    } else {
      StepKeepsLooked(s, run[0]);
      NobodyLeavesWork(Step(s, run[0]), run[1..]);
    }
  }

  /** The tasks that leave deque v in the run, in the order in which workers take them. */
  function Taken(s: State, run: seq<Action>, v: nat): seq<Task>
    requires ValidRun(s, run)
    decreases |run|
  {
    if run == [] then [] else
    var s' := Step(s, run[0]);
    var rest := Taken(s', run[1..], v);
    if v < |s.deques| && s'.deques[v] != s.deques[v] && s'.pcs[run[0].worker].Holding?
    then [s'.pcs[run[0].worker].task] + rest
    else rest
  }

  lemma {:induction false} StepTakesOldest(s: State, a: Action, v: nat)
    requires Enabled(s, a) && v < |s.deques|
    ensures v < |Step(s, a).deques| && a.worker < |Step(s, a).pcs|
    ensures var s', w := Step(s, a), a.worker;
      || s'.deques[v] == s.deques[v]
      || (s'.pcs[w].Holding? && s.deques[v] == [s'.pcs[w].task] + s'.deques[v])
  {
  }

  /** Owner and thieves alike take the oldest task: what left a deque, in order, followed
      by what is left in it is what was in it. */
  lemma {:induction false} OldestFirst(s: State, run: seq<Action>, v: nat)
    requires ValidRun(s, run) && v < |s.deques|
    ensures v < |Run(s, run).deques|
    ensures s.deques[v] == Taken(s, run, v) + Run(s, run).deques[v]
    decreases |run|
  {
    if run == [] {
    } else {
      StepTakesOldest(s, run[0], v);
      OldestFirst(Step(s, run[0]), run[1..], v);
    }
  }

  /** How many tasks worker w finishes in the run. */
  function Finished(s: State, run: seq<Action>, w: nat): nat
    requires ValidRun(s, run)
    decreases |run|
  {
    if run == [] then 0 else
    (if run[0] == Advance(w) && s.pcs[w].Holding? then 1 else 0) + Finished(Step(s, run[0]), run[1..], w)
  }

  /** Each worker's counter counts the tasks that it finished itself. */
  lemma {:induction false} CountersAreTheirOwn(s: State, run: seq<Action>, w: nat)
    requires ValidRun(s, run) && w < |s.processed|
    ensures w < |Run(s, run).processed|
    ensures Run(s, run).processed[w] == s.processed[w] + Finished(s, run, w)
    decreases |run|
  {
    if run == [] {
    } else {
      CountersAreTheirOwn(Step(s, run[0]), run[1..], w);
    }
  }

  // ---------------------------------------------------------------------------
  // Termination
  // ---------------------------------------------------------------------------

  /** Steps left to a worker that finds only empty deques and loses no race. */
  function Rest(pc: Pc, n: nat): nat {
    match pc
    case Popping => n + 2
    case Stealing(v) => if v <= n then n + 1 - v else 1
    case Holding(_) => n + 3
    case Exited => 0
  }

  function RestCounts(pcs: seq<Pc>): seq<nat> {
    seq(|pcs|, i requires 0 <= i < |pcs| => Rest(pcs[i], |pcs|))
  }

  function Rests(pcs: seq<Pc>): nat {
    Sum(RestCounts(pcs))
  }

  /** Steps left, each queued task costing a worker another round. */
  function Work(s: State): nat {
    Rests(s.pcs) + Queued(s.deques, None) * (|s.pcs| + 4)
  }

  lemma {:induction false} RestsUpdate(pcs: seq<Pc>, w: nat, pc: Pc)
    requires w < |pcs|
    ensures Rests(pcs[w := pc]) + Rest(pcs[w], |pcs|) == Rests(pcs) + Rest(pc, |pcs|)
  {
    assert RestCounts(pcs[w := pc]) == RestCounts(pcs)[w := Rest(pc, |pcs|)];
    SumUpdate(RestCounts(pcs), w, Rest(pc, |pcs|));
  }

  lemma {:induction false} OneMore(k: nat, n: nat)
    ensures (1 + k) * n == k * n + n
  {
  }

  lemma {:induction false} TakeUsesWork(s: State, w: nat, v: nat)
    requires Shaped(s) && w < |s.pcs| && v < |s.deques| && s.deques[v] != []
    requires s.pcs[w].Popping? || s.pcs[w].Stealing?
    ensures Work(Take(s, w, v)) < Work(s)
  {
    var n := |s.pcs|;
    RestsUpdate(s.pcs, w, Holding(s.deques[v][0]));
    QueuedUpdate(s.deques, v, s.deques[v][1..], None);
    OneMore(Queued(Take(s, w, v).deques, None), n + 4);
  }

  /** An advance uses up work; a lost race costs at most one more round. */
  lemma {:induction false} StepUsesWork(s: State, a: Action)
    requires Enabled(s, a)
    ensures a.Advance? ==> Work(Step(s, a)) < Work(s)
    ensures a.Retry? ==> Work(Step(s, a)) <= Work(s) + |s.pcs| + 2
  {
    var w := a.worker;
    if a.Advance? && Step(s, a).pcs[w].Holding? {
      TakeUsesWork(s, w, if s.pcs[w].Popping? then w else s.pcs[w].victim);
    } else {
      RestsUpdate(s.pcs, w, Step(s, a).pcs[w]);
    }
  }

  function Retries(run: seq<Action>): nat {
    if run == [] then 0 else (if run[0].Retry? then 1 else 0) + Retries(run[1..])
  }

  /** Only lost races can prolong a run: its length is bounded by the work at its
      start and the number of retries. */
  lemma {:induction false} RunsAreBounded(s: State, run: seq<Action>)
    requires ValidRun(s, run)
    ensures |run| <= Work(s) + Retries(run) * (|s.pcs| + 3)
    decreases |run|
  {
    if run == [] {
    } else {
      StepUsesWork(s, run[0]);
      RunsAreBounded(Step(s, run[0]), run[1..]);
      if run[0].Retry? {
        OneMore(Retries(run[1..]), |s.pcs| + 3);
      }
    }
  }

  /** A worker that has not left can always take its next step, so a run that
      cannot go on is one where all workers have left. */
  lemma {:induction false} StuckMeansDone(s: State)
    requires Shaped(s)
    ensures AllExited(s) <==> forall a :: Enabled(s, a) ==> a.Retry?
    ensures AllExited(s) ==> forall a :: !Enabled(s, a)
  {
    if w :| 0 <= w < |s.pcs| && s.pcs[w] != Exited {
      assert Enabled(s, Advance(w));
    }
  }
}
