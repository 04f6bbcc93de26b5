/** Service statistics kept by atomics and compare-exchange loops, and the same
    statistics kept under a mutex. */
module ServiceStats {
  import opened Options
  import opened Permutations
  import opened Sums
  import opened Words

  datatype Record = Record(success: bool, latency: u64)

  datatype Stats = Stats(total: u64, success: u64, failed: u64, min: u64, max: u64, sum: u64)

  const NEW := Stats(0, 0, 0, MAX_U64, 0, 0)

  /** One record made in one piece, additions wrapping at the word. */
  function Recorded(s: Stats, r: Record): Stats {
    Stats(Plus(s.total, 1),
          if r.success then Plus(s.success, 1) else s.success,
          if r.success then s.failed else Plus(s.failed, 1),
          if r.latency < s.min then r.latency else s.min,
          if r.latency > s.max then r.latency else s.max,
          Plus(s.sum, r.latency))
  }

  /** The mutex statistics after these records, in this order. */
  function Fold(rs: seq<Record>): Stats {
    if rs == [] then NEW else Recorded(Fold(rs[..|rs| - 1]), rs[|rs| - 1])
  }

  /** As Fold where an overflowing addition panics, as it does in a checked build. */
  function CheckedFold(rs: seq<Record>): Option<Stats> {
    if rs == [] then Some(NEW) else
    var s := CheckedFold(rs[..|rs| - 1]);
    if s == None then None else CheckedRecord(s.value, rs[|rs| - 1])
  }

  function CheckedRecord(s: Stats, r: Record): Option<Stats> {
    if s.total == MAX_U64 || (if r.success then s.success else s.failed) == MAX_U64 || s.sum + r.latency > MAX_U64
    then None
    else Some(Recorded(s, r))
  }

  /** The statistics under a mutex. */
  class MutexStats {
    var total: u64
    var success: u64
    var failed: u64
    var min: u64
    var max: u64
    var sum: u64

    ghost function Contents(): Stats
      reads this
    {
      Stats(total, success, failed, min, max, sum)
    }

    constructor ()
      ensures Contents() == NEW
    {
      total, success, failed, min, max, sum := 0, 0, 0, MAX_U64, 0, 0;
    }

    method Record(r: Record)
      modifies this
      ensures Contents() == Recorded(old(Contents()), r)
    {
      total := Plus(total, 1);
      if r.success {
        success := Plus(success, 1);
      } else {
        failed := Plus(failed, 1);
      }
      sum := Plus(sum, r.latency);
      if r.latency < min {
        min := r.latency;
      }
      if r.latency > max {
        max := r.latency;
      }
    }
  }

  /** What happens between two looks of a compare-exchange loop at its target:
      another thread's value may land, and the exchange may fail for no reason. */
  datatype Disturbance = Disturbance(other: u64, spurious: bool)

  function Least(m: u64, ds: seq<Disturbance>): u64 {
    if ds == [] then m else
    var least := Least(m, ds[..|ds| - 1]);
    if ds[|ds| - 1].other < least then ds[|ds| - 1].other else least
  }

  function Greatest(m: u64, ds: seq<Disturbance>): u64 {
    if ds == [] then m else
    var greatest := Greatest(m, ds[..|ds| - 1]);
    if ds[|ds| - 1].other > greatest then ds[|ds| - 1].other else greatest
  }

  /** The statistics in atomic words. */
  class AtomicStats {
    var total: u64
    var success: u64
    var failed: u64
    var min: u64
    var max: u64
    var sum: u64

    ghost function Contents(): Stats
      reads this
    {
      Stats(total, success, failed, min, max, sum)
    }

    constructor ()
      ensures Contents() == NEW
    {
      total, success, failed, min, max, sum := 0, 0, 0, MAX_U64, 0, 0;
    }

    /** Whatever the other threads do meanwhile, the minimum ends as the least of
        what it was, this value and the values that landed. */
    method AtomicMin(value: u64, ds: seq<Disturbance>) returns (ghost landed: nat)
      modifies this`min
      ensures landed <= |ds|
      ensures var others := Least(old(min), ds[..landed]); min == if value < others then value else others
    {
      var current := min;
      var i: nat := 0;
      landed := 0;
      while value < current
        invariant landed == i <= |ds| && min <= current
        invariant min == Least(old(min), ds[..i])
        decreases |ds| - i, if min == current then 0 else 1
      {
        var spurious := false;
        if i < |ds| {
          if ds[i].other < min {
            min := ds[i].other;
          }
          spurious := ds[i].spurious;
          assert ds[..i + 1][..i] == ds[..i];
          i := i + 1;
          landed := i;
        }
        if min == current && !spurious {
          min := value;
          return;
        }
        current := min;
      }
    }

    method AtomicMax(value: u64, ds: seq<Disturbance>) returns (ghost landed: nat)
      modifies this`max
      ensures landed <= |ds|
      ensures var others := Greatest(old(max), ds[..landed]); max == if value > others then value else others
    {
      var current := max;
      var i: nat := 0;
      landed := 0;
      while value > current
        invariant landed == i <= |ds| && max >= current
        invariant max == Greatest(old(max), ds[..i])
        decreases |ds| - i, if max == current then 0 else 1
      {
        var spurious := false;
        if i < |ds| {
          if ds[i].other > max {
            max := ds[i].other;
          }
          spurious := ds[i].spurious;
          assert ds[..i + 1][..i] == ds[..i];
          i := i + 1;
          landed := i;
        }
        if max == current && !spurious {
          max := value;
          return;
        }
        current := max;
      }
    }

    /** A record nobody disturbs does what the mutex version does. */
    method Record(r: Record)
      modifies this
      ensures Contents() == Recorded(old(Contents()), r)
    {
      total := Plus(total, 1);
      if r.success {
        success := Plus(success, 1);
      } else {
        failed := Plus(failed, 1);
      }
      sum := Plus(sum, r.latency);
      ghost var a := AtomicMin(r.latency, []);
      ghost var b := AtomicMax(r.latency, []);
    }
  }

  // ---------------------------------------------------------------------------
  // Threads recording at once
  // ---------------------------------------------------------------------------

  /** Where a thread stands in its record: about to add to the total, to the
      outcome, to the sum; loading or exchanging the minimum, then the maximum;
      or back. */
  datatype Pc =
    | Counting
    | Judging
    | Adding
    | LoadingMin
    | LoweringMin(current: u64)
    | LoadingMax
    | RaisingMax(current: u64)
    | Returned

  datatype State = State(records: seq<Record>, pcs: seq<Pc>, shared: Stats)

  /** A thread's next atomic step; Spurious is a weak exchange failing for no reason. */
  datatype Action = Advance(thread: nat) | Spurious(thread: nat)

  predicate Enabled(s: State, a: Action) {
    && |s.pcs| == |s.records| && a.thread < |s.pcs|
    && match a
       case Advance(i) => s.pcs[i] != Returned
       case Spurious(i) =>
         || (s.pcs[i].LoweringMin? && s.records[i].latency < s.pcs[i].current)
         || (s.pcs[i].RaisingMax? && s.records[i].latency > s.pcs[i].current)
  }

  function Step(s: State, a: Action): State
    requires Enabled(s, a)
  {
    var i, r, g := a.thread, s.records[a.thread], s.shared;
    match s.pcs[i]
    case Counting => s.(pcs := s.pcs[i := Judging], shared := g.(total := Plus(g.total, 1)))
    case Judging =>
      s.(pcs := s.pcs[i := Adding],
         shared := if r.success then g.(success := Plus(g.success, 1)) else g.(failed := Plus(g.failed, 1)))
    case Adding => s.(pcs := s.pcs[i := LoadingMin], shared := g.(sum := Plus(g.sum, r.latency)))
    case LoadingMin => s.(pcs := s.pcs[i := LoweringMin(g.min)])
    case LoweringMin(current) =>
      if r.latency >= current then s.(pcs := s.pcs[i := LoadingMax])
      else if a.Spurious? || g.min != current then s.(pcs := s.pcs[i := LoweringMin(g.min)])
      else s.(pcs := s.pcs[i := LoadingMax], shared := g.(min := r.latency))
    case LoadingMax => s.(pcs := s.pcs[i := RaisingMax(g.max)])
    case RaisingMax(current) =>
      if r.latency <= current then s.(pcs := s.pcs[i := Returned])
      else if a.Spurious? || g.max != current then s.(pcs := s.pcs[i := RaisingMax(g.max)])
      else s.(pcs := s.pcs[i := Returned], shared := g.(max := r.latency))
    case Returned => s
  }

  function Initial(records: seq<Record>): State {
    State(records, seq(|records|, _ => Counting), NEW)
  }

  predicate ValidRun(s: State, run: seq<Action>)
    decreases |run|
  {
    run == [] || (Enabled(s, run[0]) && ValidRun(Step(s, run[0]), run[1..]))
  }

  function Run(s: State, run: seq<Action>): State
    requires ValidRun(s, run)
    decreases |run|
  {
    if run == [] then s else Run(Step(s, run[0]), run[1..])
  }

  predicate AllReturned(s: State) {
    forall i :: 0 <= i < |s.pcs| ==> s.pcs[i] == Returned
  }

  // ---------------------------------------------------------------------------
  // The four counters
  // ---------------------------------------------------------------------------

  datatype Field = Total | Success | Failed | LatencySum

  function Counter(g: Stats, f: Field): u64 {
    match f
    case Total => g.total
    case Success => g.success
    case Failed => g.failed
    case LatencySum => g.sum
  }

  /** What a record adds to a counter. */
  function Amount(r: Record, f: Field): nat {
    match f
    case Total => 1
    case Success => if r.success then 1 else 0
    case Failed => if r.success then 0 else 1
    case LatencySum => r.latency
  }

  function Amounts(rs: seq<Record>, f: Field): seq<nat> {
    seq(|rs|, i requires 0 <= i < |rs| => Amount(rs[i], f))
  }

  /** A thread past a counter has added its amount, one before it nothing. */
  predicate Past(pc: Pc, f: Field) {
    match f
    case Total => !pc.Counting?
    case Success => !pc.Counting? && !pc.Judging?
    case Failed => !pc.Counting? && !pc.Judging?
    case LatencySum => !pc.Counting? && !pc.Judging? && !pc.Adding?
  }

  function Share(pc: Pc, r: Record, f: Field): nat {
    if Past(pc, f) then Amount(r, f) else 0
  }

  function Shares(s: State, f: Field): seq<nat>
    requires |s.pcs| == |s.records|
  {
    seq(|s.pcs|, i requires 0 <= i < |s.pcs| => Share(s.pcs[i], s.records[i], f))
  }

  ghost predicate CountersExact(s: State) {
    && |s.pcs| == |s.records|
    && forall f: Field :: Counter(s.shared, f) == Sum(Shares(s, f)) % WORD
  }

  /** Each step moves a counter by what the thread's share moves. */
  lemma {:induction false} StepMovesShare(s: State, a: Action, f: Field)
    requires Enabled(s, a)
    ensures var i, t := a.thread, Step(s, a);
      var before, after := Share(s.pcs[i], s.records[i], f), Share(t.pcs[i], s.records[i], f);
      && 0 <= after - before < WORD
      && Counter(t.shared, f) == Plus(Counter(s.shared, f), after - before)
  {
  }

  lemma {:induction false} StepMovesSum(s: State, a: Action, f: Field)
    requires Enabled(s, a)
    ensures var i, t := a.thread, Step(s, a);
      Sum(Shares(t, f)) == Sum(Shares(s, f)) + Share(t.pcs[i], s.records[i], f) - Share(s.pcs[i], s.records[i], f)
  {
    var i, t := a.thread, Step(s, a);
    var share := Share(t.pcs[i], s.records[i], f);
    assert Shares(t, f) == Shares(s, f)[i := share];
    SumUpdate(Shares(s, f), i, share);
  }

  lemma {:induction false} StepKeepsCounter(s: State, a: Action, f: Field)
    requires Enabled(s, a) && Counter(s.shared, f) == Sum(Shares(s, f)) % WORD
    ensures Counter(Step(s, a).shared, f) == Sum(Shares(Step(s, a), f)) % WORD
  {
    var i, t := a.thread, Step(s, a);
    StepMovesShare(s, a, f);
    StepMovesSum(s, a, f);
    PlusWraps(Sum(Shares(s, f)), Share(t.pcs[i], s.records[i], f) - Share(s.pcs[i], s.records[i], f));
  }

  // ---------------------------------------------------------------------------
  // Minimum and maximum
  // ---------------------------------------------------------------------------

  predicate Attains(rs: seq<Record>, m: u64) {
    exists i :: 0 <= i < |rs| && rs[i].latency == m
  }

  predicate IsMin(rs: seq<Record>, m: u64) {
    && (forall i :: 0 <= i < |rs| ==> m <= rs[i].latency)
    && (m == MAX_U64 || Attains(rs, m))
  }

  predicate IsMax(rs: seq<Record>, m: u64) {
    && (forall i :: 0 <= i < |rs| ==> m >= rs[i].latency)
    && (m == 0 || Attains(rs, m))
  }

  predicate PastMin(pc: Pc) {
    pc.LoadingMax? || pc.RaisingMax? || pc.Returned?
  }

  /** The minimum never rises, is below everything a thread has seen or finished
      with, and is some record's latency. */
  predicate MinInv(s: State) {
    && |s.pcs| == |s.records|
    && (forall i :: 0 <= i < |s.pcs| && s.pcs[i].LoweringMin? ==> s.shared.min <= s.pcs[i].current)
    && (forall i :: 0 <= i < |s.pcs| && PastMin(s.pcs[i]) ==> s.shared.min <= s.records[i].latency)
    && (s.shared.min == MAX_U64 || Attains(s.records, s.shared.min))
  }

  predicate MaxInv(s: State) {
    && |s.pcs| == |s.records|
    && (forall i :: 0 <= i < |s.pcs| && s.pcs[i].RaisingMax? ==> s.shared.max >= s.pcs[i].current)
    && (forall i :: 0 <= i < |s.pcs| && s.pcs[i].Returned? ==> s.shared.max >= s.records[i].latency)
    && (s.shared.max == 0 || Attains(s.records, s.shared.max))
  }

  lemma {:induction false} StepKeepsMin(s: State, a: Action)
    requires Enabled(s, a) && MinInv(s)
    ensures MinInv(Step(s, a)) && Step(s, a).shared.min <= s.shared.min
  {
    var t := Step(s, a);
    assert t.shared.min == s.shared.min || t.shared.min == s.records[a.thread].latency;
  }

  lemma {:induction false} StepKeepsMax(s: State, a: Action)
    requires Enabled(s, a) && MaxInv(s)
    ensures MaxInv(Step(s, a)) && Step(s, a).shared.max >= s.shared.max
  {
    var t := Step(s, a);
    assert t.shared.max == s.shared.max || t.shared.max == s.records[a.thread].latency;
  }

  /** At every moment of every interleaving the counters are exact for the steps
      taken and the extrema bound what the finished threads recorded. */
  lemma {:induction false} RunKeeps(s: State, run: seq<Action>)
    requires ValidRun(s, run) && CountersExact(s) && MinInv(s) && MaxInv(s)
    ensures CountersExact(Run(s, run)) && MinInv(Run(s, run)) && MaxInv(Run(s, run))
    ensures Run(s, run).records == s.records
    decreases |run|
  {
    if run == [] {
    } else {
      var t := Step(s, run[0]);
      forall f: Field
        ensures Counter(t.shared, f) == Sum(Shares(t, f)) % WORD
      {
        StepKeepsCounter(s, run[0], f);
      }
      StepKeepsMin(s, run[0]);
      StepKeepsMax(s, run[0]);
      RunKeeps(t, run[1..]);
    }
  }

  // ---------------------------------------------------------------------------
  // Agreement with the mutex twin
  // ---------------------------------------------------------------------------

  /** What the statistics of these records must be, in no particular order. */
  ghost predicate Describes(g: Stats, rs: seq<Record>) {
    && (forall f: Field :: Counter(g, f) == Sum(Amounts(rs, f)) % WORD)
    && IsMin(rs, g.min)
    && IsMax(rs, g.max)
  }

  lemma {:induction false} DescribesUnique(g: Stats, h: Stats, rs: seq<Record>)
    requires Describes(g, rs) && Describes(h, rs)
    ensures g == h
  {
    assert forall f: Field :: Counter(g, f) == Counter(h, f);
    assert g.total == Counter(g, Total) && g.success == Counter(g, Success);
    assert g.failed == Counter(g, Failed) && g.sum == Counter(g, LatencySum);
  }

  lemma {:induction false} QuiescentDescribes(s: State)
    requires CountersExact(s) && MinInv(s) && MaxInv(s) && AllReturned(s)
    ensures Describes(s.shared, s.records)
  {
    forall f: Field
      ensures Counter(s.shared, f) == Sum(Amounts(s.records, f)) % WORD
    {
      assert Shares(s, f) == Amounts(s.records, f);
    }
  }

  lemma {:induction false} AmountsAppend(rs: seq<Record>, r: Record, f: Field)
    ensures Sum(Amounts(rs + [r], f)) == Sum(Amounts(rs, f)) + Amount(r, f)
  {
    assert Amounts(rs + [r], f)[..|rs|] == Amounts(rs, f);
  }

  lemma {:induction false} RecordedCounter(g: Stats, r: Record, f: Field)
    ensures Counter(Recorded(g, r), f) == Plus(Counter(g, f), Amount(r, f))
  {
  }

  lemma {:induction false} RecordedDescribes(g: Stats, rs: seq<Record>, r: Record)
    requires Describes(g, rs)
    ensures Describes(Recorded(g, r), rs + [r])
  {
    forall f: Field
      ensures Counter(Recorded(g, r), f) == Sum(Amounts(rs + [r], f)) % WORD
    {
      RecordedCounter(g, r, f);
      AmountsAppend(rs, r, f);
      PlusWraps(Sum(Amounts(rs, f)), Amount(r, f));
    }
    RecordedExtrema(g, rs, r);
  }

  lemma {:induction false} RecordedExtrema(g: Stats, rs: seq<Record>, r: Record)
    requires IsMin(rs, g.min) && IsMax(rs, g.max)
    ensures IsMin(rs + [r], Recorded(g, r).min) && IsMax(rs + [r], Recorded(g, r).max)
  {
    var h := Recorded(g, r);
    AttainsMore(rs, r, h.min);
    AttainsMore(rs, r, h.max);
  }

  lemma {:induction false} AttainsMore(rs: seq<Record>, r: Record, m: u64)
    ensures Attains(rs + [r], m) <==> Attains(rs, m) || m == r.latency
  {
    assert (rs + [r])[|rs|] == r;
    if i :| 0 <= i < |rs| && rs[i].latency == m {
      assert (rs + [r])[i] == rs[i];
    }
  }

  lemma {:induction false} FoldDescribes(rs: seq<Record>)
    ensures Describes(Fold(rs), rs)
  {
    if rs == [] {
      forall f: Field
        ensures Counter(NEW, f) == Sum(Amounts(rs, f)) % WORD
      {
      }
    } else {
      var rest := rs[..|rs| - 1];
      FoldDescribes(rest);
      RecordedDescribes(Fold(rest), rest, rs[|rs| - 1]);
      assert rest + [rs[|rs| - 1]] == rs;
    }
  }

  lemma {:induction false} RecordsCommute(g: Stats, r: Record, q: Record)
    ensures Recorded(Recorded(g, r), q) == Recorded(Recorded(g, q), r)
  {
    PlusSwap(g.sum, r.latency, q.latency);
  }

  lemma {:induction false} PlusSwap(a: u64, b: u64, c: u64)
    ensures Plus(Plus(a, b), c) == Plus(Plus(a, c), b)
  {
    PlusWraps(a + b, c);
    PlusWraps(a + c, b);
  }

  /** A record made in the middle could have been made last. */
  lemma {:induction false} MoveLast(rs: seq<Record>, i: nat)
    requires i < |rs|
    ensures Fold(rs) == Recorded(Fold(rs[..i] + rs[i + 1..]), rs[i])
  {
    var last := |rs| - 1;
    if i == last {
      assert rs[..i] + rs[i + 1..] == rs[..last];
    } else {
      var others := rs[..i] + rs[i + 1..];
      MoveLast(rs[..last], i);
      assert others[..last - 1] == rs[..last][..i] + rs[..last][i + 1..];
      assert others[last - 1] == rs[last];
      RecordsCommute(Fold(others[..last - 1]), rs[i], rs[last]);
    }
  }

  lemma {:induction false} FoldAnyOrder(a: seq<Record>, b: seq<Record>)
    requires multiset(a) == multiset(b)
    ensures Fold(a) == Fold(b)
    decreases |a|
  {
    if a == [] {
      assert |multiset(b)| == 0;
    } else {
      var i := WithoutLast(a, b);
      FoldAnyOrder(a[..|a| - 1], b[..i] + b[i + 1..]);
      MoveLast(b, i);
    }
  }

  /** However the threads interleave, once all have returned the shared words hold
      exactly what the mutex statistics hold after the same records in any order. */
  lemma {:induction false} AgreesWithMutex(records: seq<Record>, run: seq<Action>, order: seq<Record>)
    requires ValidRun(Initial(records), run) && AllReturned(Run(Initial(records), run))
    requires multiset(order) == multiset(records)
    ensures Run(Initial(records), run).shared == Fold(order)
  {
    var s := Initial(records);
    forall f: Field
      ensures Counter(s.shared, f) == Sum(Shares(s, f)) % WORD
    {
      SumZero(Shares(s, f));
    }
    RunKeeps(s, run);
    QuiescentDescribes(Run(s, run));
    FoldDescribes(records);
    DescribesUnique(Run(s, run).shared, Fold(records), records);
    FoldAnyOrder(order, records);
  }

  predicate Fits(rs: seq<Record>) {
    |rs| < WORD && Sum(Amounts(rs, LatencySum)) < WORD
  }

  lemma {:induction false} CountsBounded(rs: seq<Record>)
    ensures Sum(Amounts(rs, Total)) == |rs|
    ensures Sum(Amounts(rs, Success)) + Sum(Amounts(rs, Failed)) == |rs|
  {
    if rs == [] {
    } else {
      var rest, r := rs[..|rs| - 1], rs[|rs| - 1];
      CountsBounded(rest);
      assert rs == rest + [r];
      AmountsAppend(rest, r, Total);
      AmountsAppend(rest, r, Success);
      AmountsAppend(rest, r, Failed);
    }
  }

  /** Statistics that have not wrapped. */
  ghost predicate Exact(g: Stats, rs: seq<Record>) {
    && g.total == |rs| && g.success + g.failed == |rs|
    && g.sum == Sum(Amounts(rs, LatencySum))
  }

  lemma {:induction false} CounterFits(g: Stats, rs: seq<Record>, f: Field)
    requires Describes(g, rs) && Sum(Amounts(rs, f)) < WORD
    ensures Counter(g, f) == Sum(Amounts(rs, f))
  {
    assert Counter(g, f) == Sum(Amounts(rs, f)) % WORD;
  }

  lemma {:induction false} FitsExact(rs: seq<Record>)
    requires Fits(rs)
    ensures Exact(Fold(rs), rs)
  {
    FoldDescribes(rs);
    CountsBounded(rs);
    CounterFits(Fold(rs), rs, Total);
    CounterFits(Fold(rs), rs, Success);
    CounterFits(Fold(rs), rs, Failed);
    CounterFits(Fold(rs), rs, LatencySum);
  }

  /** With overflow checks the mutex statistics survive exactly the records whose
      number and total latency fit a word; then nothing wraps and both agree. */
  lemma {:induction false} ChecksPassIffFits(rs: seq<Record>)
    ensures CheckedFold(rs) == if Fits(rs) then Some(Fold(rs)) else None
  {
    if rs == [] {
    } else {
      var rest, r := rs[..|rs| - 1], rs[|rs| - 1];
      ChecksPassIffFits(rest);
      assert rs == rest + [r];
      AmountsAppend(rest, r, LatencySum);
      if Fits(rest) {
        FitsExact(rest);
      }
    }
  }

  // ---------------------------------------------------------------------------
  // Progress
  // ---------------------------------------------------------------------------

  /** Steps left to a thread. A failed exchange leaves a smaller gap to close. */
  function Rest(pc: Pc, r: Record): nat {
    match pc
    case Counting => 2 * WORD + 8
    case Judging => 2 * WORD + 7
    case Adding => 2 * WORD + 6
    case LoadingMin => 2 * WORD + 5
    case LoweringMin(current) => WORD + 4 + (if current > r.latency then current - r.latency else 0)
    case LoadingMax => WORD + 3
    case RaisingMax(current) => 1 + (if r.latency > current then r.latency - current else 0)
    case Returned => 0
  }

  function Rests(s: State): seq<nat>
    requires |s.pcs| == |s.records|
  {
    seq(|s.pcs|, i requires 0 <= i < |s.pcs| => Rest(s.pcs[i], s.records[i]))
  }

  lemma {:induction false} StepUsesRest(s: State, a: Action)
    requires Enabled(s, a) && MinInv(s) && MaxInv(s)
    ensures var i, t := a.thread, Step(s, a);
      && Rest(t.pcs[i], s.records[i]) <= Rest(s.pcs[i], s.records[i])
      && (a.Advance? ==> Rest(t.pcs[i], s.records[i]) < Rest(s.pcs[i], s.records[i]))
  {
  }

  /** A step uses up work; a spurious failure at least adds none. */
  lemma {:induction false} StepUsesWork(s: State, a: Action)
    requires Enabled(s, a) && MinInv(s) && MaxInv(s)
    ensures Sum(Rests(Step(s, a))) <= Sum(Rests(s))
    ensures a.Advance? ==> Sum(Rests(Step(s, a))) < Sum(Rests(s))
  {
    StepUsesRest(s, a);
    RestsMove(s, a);
  }

  lemma {:induction false} RestsMove(s: State, a: Action)
    requires Enabled(s, a)
    ensures var i, t := a.thread, Step(s, a);
      Sum(Rests(t)) + Rest(s.pcs[i], s.records[i]) == Sum(Rests(s)) + Rest(t.pcs[i], s.records[i])
  {
    var i, t := a.thread, Step(s, a);
    var rest := Rest(t.pcs[i], s.records[i]);
    assert Rests(t) == Rests(s)[i := rest];
    SumUpdate(Rests(s), i, rest);
  }

  function SpuriousFailures(run: seq<Action>): nat {
    if run == [] then 0 else (if run[0].Spurious? then 1 else 0) + SpuriousFailures(run[1..])
  }

  /** The loops cannot keep each other going: only spurious failures prolong a run. */
  lemma {:induction false} RunsAreBounded(s: State, run: seq<Action>)
    requires ValidRun(s, run) && MinInv(s) && MaxInv(s)
    ensures |run| <= Sum(Rests(s)) + SpuriousFailures(run)
    decreases |run|
  {
    if run == [] {
    } else {
      StepUsesWork(s, run[0]);
      StepKeepsMin(s, run[0]);
      StepKeepsMax(s, run[0]);
      RunsAreBounded(Step(s, run[0]), run[1..]);
    }
  }
}
