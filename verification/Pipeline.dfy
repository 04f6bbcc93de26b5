/** Latency totals of the error lines of a log: sequentially, and by folding
    pieces of it in parallel and merging the maps. Then a divide-and-conquer sum
    and a chunked maximum. */
module Pipeline {
  import opened Options
  import opened Sums
  import opened Words

  // ---------------------------------------------------------------------------
  // Lines
  // ---------------------------------------------------------------------------

  const SEPARATOR := ';'

  type u32 = x: int | 0 <= x < U32

  datatype Event = Event(ip: string, level: string, latency: u32)

  /** Length of the first field of s. */
  function Cut(s: string): (n: nat)
    ensures n <= |s| && SEPARATOR !in s[..n]
    ensures n < |s| ==> s[n] == SEPARATOR
  {
    if s == [] || s[0] == SEPARATOR then 0 else
    assert s[..1 + Cut(s[1..])] == [s[0]] + s[1..][..Cut(s[1..])];
    1 + Cut(s[1..])
  }

  function Split(s: string): (parts: seq<string>)
    ensures parts != []
  {
    if Cut(s) == |s| then [s] else [s[..Cut(s)]] + Split(s[Cut(s) + 1..])
  }

  function Join(parts: seq<string>): string
    requires parts != []
  {
    if |parts| == 1 then parts[0] else parts[0] + [SEPARATOR] + Join(parts[1..])
  }

  lemma {:induction false} JoinCons(field: string, rest: seq<string>)
    requires rest != []
    ensures Join([field] + rest) == field + [SEPARATOR] + Join(rest)
  {
    assert ([field] + rest)[1..] == rest;
  }

  predicate Separable(parts: seq<string>) {
    forall p :: p in parts ==> SEPARATOR !in p
  }

  /** Splitting loses nothing and leaves no separator. */
  lemma {:induction false} SplitThenJoin(s: string)
    ensures Separable(Split(s)) && Join(Split(s)) == s
    decreases |s|
  {
    var n := Cut(s);
    if n == |s| {
      assert s[..n] == s;
    } else {
      var rest := s[n + 1..];
      SplitThenJoin(rest);
      JoinCons(s[..n], Split(rest));
      assert s == s[..n] + [SEPARATOR] + rest;
    }
  }

  lemma {:induction false} CutIsFirst(s: string, n: nat)
    requires n < |s| && s[n] == SEPARATOR && forall i :: 0 <= i < n ==> s[i] != SEPARATOR
    ensures Cut(s) == n
  {
    if n == 0 {
    } else {
      CutIsFirst(s[1..], n - 1);
    }
  }

  lemma {:induction false} CutAt(field: string, rest: string)
    requires SEPARATOR !in field
    ensures Cut(field + [SEPARATOR] + rest) == |field|
  {
    var s := field + [SEPARATOR] + rest;
    assert s[|field|] == SEPARATOR && forall i :: 0 <= i < |field| ==> s[i] == field[i];
    CutIsFirst(s, |field|);
  }

  lemma {:induction false} JoinThenSplit(parts: seq<string>)
    requires parts != [] && Separable(parts)
    ensures Split(Join(parts)) == parts
    decreases |parts|
  {
    var s := Join(parts);
    if |parts| == 1 {
      assert parts == [s];
      assert SEPARATOR !in s;
    } else {
      var rest := Join(parts[1..]);
      CutAt(parts[0], rest);
      JoinThenSplit(parts[1..]);
      assert s[..|parts[0]|] == parts[0] && s[|parts[0]| + 1..] == rest;
    }
  }

  predicate AllDigits(s: string) {
    forall c :: c in s ==> '0' <= c <= '9'
  }

  function Number(s: string): nat {
    if s == [] then 0 else Number(s[..|s| - 1]) * 10 + DigitValue(s[|s| - 1])
  }

  function DigitValue(c: char): nat {
    if '0' <= c <= '9' then c as int - '0' as int else 0
  }

  /** A decimal numeral below 2^32, after at most one plus sign. */
  function ParseU32(s: string): Option<u32> {
    var digits := if s != [] && s[0] == '+' then s[1..] else s;
    if digits != [] && AllDigits(digits) && Number(digits) < U32 then Some(Number(digits)) else None
  }

  /** Fields beyond the third are ignored. */
  function ParseLine(line: string): Option<Event> {
    var parts := Split(line);
    if |parts| < 3 then None else
    match ParseU32(parts[2])
    case None => None
    case Some(latency) => Some(Event(parts[0], parts[1], latency))
  }

  function FormatLine(e: Event): string {
    e.ip + [SEPARATOR] + e.level + [SEPARATOR] + Decimal(e.latency)
  }

  lemma {:induction false} NumberOfDecimal(n: nat)
    ensures Number(Decimal(n)) == n
    decreases n
  {
    var s := Decimal(n);
    assert s[|s| - 1] == Digit(n % 10) && DigitValue(Digit(n % 10)) == n % 10;
    if n >= 10 {
      NumberOfDecimal(n / 10);
      assert s[..|s| - 1] == Decimal(n / 10);
    } else {
      assert s[..|s| - 1] == [];
    }
  }

  lemma {:induction false} ParseDecimal(n: u32)
    ensures ParseU32(Decimal(n)) == Some(n)
  {
    NumberOfDecimal(n);
    assert Decimal(n)[0] in Decimal(n);
  }

  /** A printed event reads back exactly when neither text field holds a separator. */
  lemma {:induction false} LineRoundTrip(e: Event)
    ensures ParseLine(FormatLine(e)) == Some(e) <==> SEPARATOR !in e.ip && SEPARATOR !in e.level
  {
    var line := FormatLine(e);
    if SEPARATOR !in e.ip && SEPARATOR !in e.level {
      var parts := [e.ip, e.level, Decimal(e.latency)];
      assert parts == [e.ip] + ([e.level] + [Decimal(e.latency)]);
      JoinCons(e.ip, [e.level] + [Decimal(e.latency)]);
      JoinCons(e.level, [Decimal(e.latency)]);
      assert line == Join(parts);
      JoinThenSplit(parts);
      ParseDecimal(e.latency);
    } else {
      SplitThenJoin(line);
    }
  }

  /** Fewer than three fields do not parse; of more, the third decides and the rest are ignored. */
  lemma {:induction false} FieldsOfLine(parts: seq<string>)
    requires parts != [] && Separable(parts)
    ensures |parts| < 3 ==> ParseLine(Join(parts)) == None
    ensures |parts| >= 3 ==>
      match ParseU32(parts[2])
      case None => ParseLine(Join(parts)) == None
      case Some(latency) => ParseLine(Join(parts)) == Some(Event(parts[0], parts[1], latency))
  {
    JoinThenSplit(parts);
  }

  function Zeros(k: nat): string {
    seq(k, _ => '0')
  }

  /** One more digit d after the numeral of m with k leading zeros. */
  lemma {:induction false} NumeralNext(m: nat, k: nat, d: nat) returns (k': nat)
    requires d < 10
    ensures Zeros(k) + Decimal(m) + [Digit(d)] == Zeros(k') + Decimal(m * 10 + d)
  {
    if m == 0 {
      k' := k + 1;
      assert Zeros(k + 1) == Zeros(k) + ['0'];
    } else {
      k' := k;
      var n := m * 10 + d;
      assert n / 10 == m && n % 10 == d;
      assert Decimal(n) == Decimal(m) + [Digit(d)];
    }
  }

  lemma {:induction false} NumeralOf(s: string) returns (k: nat)
    requires s != [] && AllDigits(s)
    ensures s == Zeros(k) + Decimal(Number(s))
  {
    var init, c := s[..|s| - 1], s[|s| - 1];
    assert s == init + [c] && c in s;
    assert c == Digit(DigitValue(c));
    if init == [] {
      k := 0;
    } else {
      assert forall x :: x in init ==> x in s;
      var j := NumeralOf(init);
      k := NumeralNext(Number(init), j, DigitValue(c));
    }
  }

  lemma {:induction false} NumberOfZeros(k: nat, s: string)
    ensures Number(Zeros(k) + s) == Number(s)
    decreases k, |s|
  {
    if s == [] {
      assert Zeros(k) + s == Zeros(k);
      if k > 0 {
        assert Zeros(k)[..k - 1] == Zeros(k - 1) + [];
        NumberOfZeros(k - 1, []);
      }
    } else {
      assert (Zeros(k) + s)[..|Zeros(k) + s| - 1] == Zeros(k) + s[..|s| - 1];
      NumberOfZeros(k, s[..|s| - 1]);
    }
  }

  /** A text parses to n exactly when it is n in decimal, after any number of leading
      zeros and at most one plus sign. */
  lemma {:induction false} ParseU32Exactly(s: string, n: u32)
    ensures ParseU32(s) == Some(n) <==>
      exists k: nat :: s == Zeros(k) + Decimal(n) || s == ['+'] + (Zeros(k) + Decimal(n))
  {
    if ParseU32(s) == Some(n) {
      var digits := if s != [] && s[0] == '+' then s[1..] else s;
      var k := NumeralOf(digits);
      assert s == digits || s == ['+'] + digits;
    }
    forall k: nat | s == Zeros(k) + Decimal(n) || s == ['+'] + (Zeros(k) + Decimal(n))
      ensures ParseU32(s) == Some(n)
    {
      NumeralParses(k, n);
      if s != Zeros(k) + Decimal(n) {
        assert s[1..] == Zeros(k) + Decimal(n);
      }
    }
  }

  lemma {:induction false} NumeralParses(k: nat, n: u32)
    ensures var digits := Zeros(k) + Decimal(n);
      digits != [] && AllDigits(digits) && digits[0] != '+' && Number(digits) == n
  {
    var digits := Zeros(k) + Decimal(n);
    NumberOfZeros(k, Decimal(n));
    NumberOfDecimal(n);
    forall c | c in digits
      ensures '0' <= c <= '9'
    {
      assert c in Zeros(k) || c in Decimal(n);
    }
    assert digits[0] in digits;
  }

  // ---------------------------------------------------------------------------
  // Totals
  // ---------------------------------------------------------------------------

  type Totals = map<string, u64>

  function Add(build: Build, a: u64, b: u64): Option<u64> {
    if a + b >= WORD && build.Checked? then None else Some(Plus(a, b))
  }

  function Value(m: map<string, nat>, k: string): nat {
    if k in m then m[k] else 0
  }

  function At(m: Totals, k: string): u64 {
    if k in m then m[k] else 0
  }

  /** The event of an error line. */
  function ErrorOf(line: string): Option<Event> {
    match ParseLine(line)
    case None => None
    case Some(e) => if e.level == "ERROR" then Some(e) else None
  }

  function Account(build: Build, m: Totals, line: string): Option<Totals> {
    match ErrorOf(line)
    case None => Some(m)
    case Some(e) =>
      match Add(build, At(m, e.ip), e.latency)
      case None => None
      case Some(v) => Some(m[e.ip := v])
  }

  /** None is a panic. */
  function Sequential(build: Build, lines: seq<string>): Option<Totals> {
    if lines == [] then Some(map[]) else
    match Sequential(build, lines[..|lines| - 1])
    case None => None
    case Some(m) => Account(build, m, lines[|lines| - 1])
  }

  function Merge(build: Build, a: Totals, b: Totals): Option<Totals> {
    if exists k :: k in b && Add(build, At(a, k), At(b, k)) == None then None
    else Some(map k | k in a.Keys + b.Keys :: Plus(At(a, k), At(b, k)))
  }

  method AccountAll(build: Build, lines: seq<string>) returns (r: Option<Totals>)
    ensures r == Sequential(build, lines)
  {
    var acc: Totals := map[];
    for i := 0 to |lines|
      invariant Sequential(build, lines[..i]) == Some(acc)
    {
      assert lines[..i + 1][..i] == lines[..i];
      match ErrorOf(lines[i]) {
        case None =>
        case Some(e) =>
          var sum := Add(build, At(acc, e.ip), e.latency);
          if sum == None {
            PanicSpreads(build, lines, i + 1);
            return None;
          }
          acc := acc[e.ip := sum.value];
      }
    }
    assert lines[..|lines|] == lines;
    return Some(acc);
  }

  lemma {:induction false} PanicSpreads(build: Build, lines: seq<string>, n: nat)
    requires n <= |lines| && Sequential(build, lines[..n]) == None
    ensures Sequential(build, lines) == None
    decreases |lines|
  {
    if n == |lines| {
      assert lines[..n] == lines;
    } else {
      assert lines[..|lines| - 1][..n] == lines[..n];
      PanicSpreads(build, lines[..|lines| - 1], n);
    }
  }

  /** Adds the entries of b into a, in whatever order the map yields them. */
  method MergeMaps(build: Build, a: Totals, b: Totals) returns (r: Option<Totals>)
    ensures r == Merge(build, a, b)
  {
    var acc := a;
    var left := b.Keys;
    while left != {}
      invariant left <= b.Keys && acc.Keys == a.Keys + (b.Keys - left)
      invariant forall k :: k in acc ==> acc[k] == if k in left then At(a, k) else Plus(At(a, k), At(b, k))
      invariant forall k :: k in b.Keys - left ==> Add(build, At(a, k), At(b, k)) != None
      decreases left
    {
      var k :| k in left;
      var sum := Add(build, At(acc, k), At(b, k));
      if sum == None {
        return None;
      }
      acc := acc[k := sum.value];
      left := left - {k};
    }
    assert acc == map k | k in a.Keys + b.Keys :: Plus(At(a, k), At(b, k));
    return Some(acc);
  }

  /** How a parallel run cuts the items and combines the results: contiguous
      pieces, with empty identities anywhere. */
  datatype Cuts<T> = Identity | Piece(items: seq<T>) | Both(left: Cuts<T>, right: Cuts<T>)

  function Items<T>(cuts: Cuts<T>): seq<T> {
    match cuts
    case Identity => []
    case Piece(items) => items
    case Both(l, r) => Items(l) + Items(r)
  }

  function Parallel(build: Build, cuts: Cuts<string>): Option<Totals> {
    match cuts
    case Identity => Some(map[])
    case Piece(lines) => Sequential(build, lines)
    case Both(l, r) =>
      match (Parallel(build, l), Parallel(build, r))
      case (Some(a), Some(b)) => Merge(build, a, b)
      case _ => None
  }

  // ---------------------------------------------------------------------------
  // What both pipelines compute
  // ---------------------------------------------------------------------------

  /** A line's latency if it is an error of this address, else 0. */
  function Latency(line: string, ip: string): nat {
    match ErrorOf(line)
    case None => 0
    case Some(e) => if e.ip == ip then e.latency else 0
  }

  function Latencies(lines: seq<string>, ip: string): seq<nat> {
    seq(|lines|, i requires 0 <= i < |lines| => Latency(lines[i], ip))
  }

  predicate HasError(lines: seq<string>, ip: string) {
    exists line :: line in lines && ErrorOf(line).Some? && ErrorOf(line).value.ip == ip
  }

  /** Sum of the latencies of this address's error lines. */
  function Total(lines: seq<string>, ip: string): nat {
    Sum(Latencies(lines, ip))
  }

  /** In a checked build a total that does not fit panics. */
  ghost predicate Overflows(build: Build, lines: seq<string>) {
    build.Checked? && exists ip :: Total(lines, ip) >= WORD
  }

  /** What a right result says of one address. */
  predicate TalliesAt(build: Build, m: Totals, lines: seq<string>, ip: string) {
    && (ip in m <==> HasError(lines, ip))
    && At(m, ip) == Total(lines, ip) % WORD
    && (build.Checked? ==> Total(lines, ip) < WORD)
  }

  /** The result is right for these lines: a panic exactly when they overflow, and
      otherwise the addresses with an error, with their totals as words. */
  ghost predicate Tallies(build: Build, r: Option<Totals>, lines: seq<string>) {
    match r
    case None => Overflows(build, lines)
    case Some(m) => forall ip :: TalliesAt(build, m, lines, ip)
  }

  lemma {:induction false} PanicIsOverflow(build: Build, r: Option<Totals>, lines: seq<string>)
    requires Tallies(build, r, lines)
    ensures r == None <==> Overflows(build, lines)
  {
    if r.Some? {
      forall ip
        ensures build.Checked? ==> Total(lines, ip) < WORD
      {
        assert TalliesAt(build, r.value, lines, ip);
      }
    }
  }

  lemma {:induction false} TalliesUnique(build: Build, r: Option<Totals>, q: Option<Totals>, lines: seq<string>)
    requires Tallies(build, r, lines) && Tallies(build, q, lines)
    ensures r == q
  {
    PanicIsOverflow(build, r, lines);
    PanicIsOverflow(build, q, lines);
    if r.Some? {
      forall ip
        ensures ip in r.value <==> ip in q.value
        ensures At(r.value, ip) == At(q.value, ip)
      {
        assert TalliesAt(build, r.value, lines, ip) && TalliesAt(build, q.value, lines, ip);
      }
      assert forall ip :: ip in r.value ==> r.value[ip] == At(r.value, ip) && q.value[ip] == At(q.value, ip);
      assert r.value == q.value;
    }
  }

  lemma {:induction false} SumConcat(a: seq<nat>, b: seq<nat>)
    ensures Sum(a + b) == Sum(a) + Sum(b)
    decreases |b|
  {
    if b == [] {
      assert a + b == a;
    } else {
      assert (a + b)[..|a + b| - 1] == a + b[..|b| - 1];
      SumConcat(a, b[..|b| - 1]);
    }
  }

  lemma {:induction false} TotalConcat(a: seq<string>, b: seq<string>, ip: string)
    ensures Total(a + b, ip) == Total(a, ip) + Total(b, ip)
  {
    assert Latencies(a + b, ip) == Latencies(a, ip) + Latencies(b, ip);
    SumConcat(Latencies(a, ip), Latencies(b, ip));
  }

  lemma {:induction false} ErrorsConcat(a: seq<string>, b: seq<string>, ip: string)
    ensures HasError(a + b, ip) <==> HasError(a, ip) || HasError(b, ip)
  {
  }

  lemma {:induction false} MergeAt(build: Build, a: u64, b: u64, m: nat, n: nat)
    requires a == m % WORD && b == n % WORD
    requires build.Checked? ==> m < WORD && n < WORD
    ensures Plus(a, b) == (m + n) % WORD
    ensures Add(build, a, b) == None <==> build.Checked? && m + n >= WORD
  {
    PlusOfMods(m, n);
  }

  lemma {:induction false} MergeTalliesAt(
      build: Build, a: Totals, b: Totals, la: seq<string>, lb: seq<string>, ip: string)
    requires TalliesAt(build, a, la, ip) && TalliesAt(build, b, lb, ip)
    ensures Plus(At(a, ip), At(b, ip)) == Total(la + lb, ip) % WORD
    ensures Add(build, At(a, ip), At(b, ip)) == None <==> build.Checked? && Total(la + lb, ip) >= WORD
  {
    var m, n := Total(la, ip), Total(lb, ip);
    assert Total(la + lb, ip) == m + n by {
      TotalConcat(la, lb, ip);
    }
    MergeAt(build, At(a, ip), At(b, ip), m, n);
  }

  lemma {:induction false} MergeTallies(build: Build, a: Totals, b: Totals, la: seq<string>, lb: seq<string>)
    requires Tallies(build, Some(a), la) && Tallies(build, Some(b), lb)
    ensures Tallies(build, Merge(build, a, b), la + lb)
  {
    forall ip
      ensures Plus(At(a, ip), At(b, ip)) == Total(la + lb, ip) % WORD
      ensures Add(build, At(a, ip), At(b, ip)) == None <==> build.Checked? && Total(la + lb, ip) >= WORD
      ensures HasError(la + lb, ip) <==> ip in a || ip in b
    {
      assert TalliesAt(build, a, la, ip) && TalliesAt(build, b, lb, ip);
      MergeTalliesAt(build, a, b, la, lb, ip);
      ErrorsConcat(la, lb, ip);
    }
    PanicsIffOverflows(build, a, b, la + lb);
    if Merge(build, a, b).Some? {
      MergedAt(build, a, b);
    }
  }

  lemma {:induction false} PanicsIffOverflows(build: Build, a: Totals, b: Totals, lines: seq<string>)
    requires forall ip :: Add(build, At(a, ip), At(b, ip)) == None <==> build.Checked? && Total(lines, ip) >= WORD
    ensures Merge(build, a, b) == None <==> Overflows(build, lines)
  {
    if Overflows(build, lines) {
      var ip :| Total(lines, ip) >= WORD;
      assert Add(build, At(a, ip), At(b, ip)) == None;
      assert ip in b;
    }
  }

  lemma {:induction false} MergedAt(build: Build, a: Totals, b: Totals)
    requires Merge(build, a, b).Some?
    ensures var m := Merge(build, a, b).value;
      && m.Keys == a.Keys + b.Keys
      && forall ip :: At(m, ip) == Plus(At(a, ip), At(b, ip))
  {
  }

  /** A sum of pieces overflows if one of them does. */
  lemma {:induction false} OverflowSpreads(build: Build, la: seq<string>, lb: seq<string>)
    requires Overflows(build, la) || Overflows(build, lb)
    ensures Overflows(build, la + lb)
  {
    var ip :| Total(la, ip) >= WORD || Total(lb, ip) >= WORD;
    TotalConcat(la, lb, ip);
  }

  function Single(line: string): Totals {
    match ErrorOf(line)
    case None => map[]
    case Some(e) => map[e.ip := e.latency]
  }

  lemma {:induction false} SingleTallies(build: Build, line: string)
    ensures Tallies(build, Some(Single(line)), [line])
  {
    forall ip
      ensures Total([line], ip) == Latency(line, ip) < WORD
      ensures HasError([line], ip) <==> ip in Single(line)
    {
      assert Latencies([line], ip)[..0] == [];
      assert Sum(Latencies([line], ip)) == Latency(line, ip);
      assert line in [line];
    }
  }

  lemma {:induction false} AccountIsMerge(build: Build, m: Totals, line: string)
    ensures Account(build, m, line) == Merge(build, m, Single(line))
  {
    var one := Single(line);
    if ErrorOf(line) == None {
      assert Merge(build, m, one).value == m;
    } else if Account(build, m, line).Some? {
      assert Merge(build, m, one).value == Account(build, m, line).value;
    } else {
      assert ErrorOf(line).value.ip in one;
    }
  }

  lemma {:induction false} SequentialTallies(build: Build, lines: seq<string>)
    ensures Tallies(build, Sequential(build, lines), lines)
  {
    if lines == [] {
      assert forall ip :: Total(lines, ip) == 0;
    } else {
      var rest, line := lines[..|lines| - 1], lines[|lines| - 1];
      assert lines == rest + [line];
      SequentialTallies(build, rest);
      if Sequential(build, rest) == None {
        OverflowSpreads(build, rest, [line]);
      } else {
        SingleTallies(build, line);
        AccountIsMerge(build, Sequential(build, rest).value, line);
        MergeTallies(build, Sequential(build, rest).value, Single(line), rest, [line]);
      }
    }
  }

  lemma {:induction false} ParallelTallies(build: Build, cuts: Cuts<string>)
    ensures Tallies(build, Parallel(build, cuts), Items(cuts))
  {
    match cuts
    case Identity => SequentialTallies(build, []);
    case Piece(lines) => SequentialTallies(build, lines);
    case Both(l, r) =>
      ParallelTallies(build, l);
      ParallelTallies(build, r);
      if Parallel(build, l) == None || Parallel(build, r) == None {
        OverflowSpreads(build, Items(l), Items(r));
      } else {
        MergeTallies(build, Parallel(build, l).value, Parallel(build, r).value, Items(l), Items(r));
      }
  }

  /** However the lines are cut into pieces and the maps are merged, the parallel
      pipeline returns the sequential one's map, and panics on the same logs. */
  lemma {:induction false} ParallelIsSequential(build: Build, cuts: Cuts<string>)
    ensures Parallel(build, cuts) == Sequential(build, Items(cuts))
  {
    ParallelTallies(build, cuts);
    SequentialTallies(build, Items(cuts));
    TalliesUnique(build, Parallel(build, cuts), Sequential(build, Items(cuts)), Items(cuts));
  }

  /** The parallel pipeline as it runs. */
  method RunParallel(build: Build, cuts: Cuts<string>) returns (r: Option<Totals>)
    ensures r == Sequential(build, Items(cuts))
  {
    ParallelIsSequential(build, cuts);
    match cuts {
      case Identity =>
        return Some(map[]);
      case Piece(lines) =>
        r := AccountAll(build, lines);
      case Both(left, right) =>
        var a := RunParallel(build, left);
        var b := RunParallel(build, right);
        ParallelIsSequential(build, left);
        ParallelIsSequential(build, right);
        if a == None || b == None {
          return None;
        }
        r := MergeMaps(build, a.value, b.value);
    }
  }

  // ---------------------------------------------------------------------------
  // From events to totals
  // ---------------------------------------------------------------------------

  predicate Printable(e: Event) {
    SEPARATOR !in e.ip && SEPARATOR !in e.level
  }

  function Printed(events: seq<Event>): seq<string> {
    seq(|events|, i requires 0 <= i < |events| => FormatLine(events[i]))
  }

  /** The latencies of this address's events of level ERROR, 0 for the others. */
  function ErrorLatencies(events: seq<Event>, ip: string): seq<nat> {
    seq(|events|, i requires 0 <= i < |events| =>
      if events[i].level == "ERROR" && events[i].ip == ip then events[i].latency else 0)
  }

  lemma {:induction false} PrintedError(e: Event)
    requires Printable(e)
    ensures ErrorOf(FormatLine(e)) == if e.level == "ERROR" then Some(e) else None
  {
    LineRoundTrip(e);
  }

  lemma {:induction false} PrintedLatencies(events: seq<Event>, ip: string)
    requires forall i :: 0 <= i < |events| ==> Printable(events[i])
    ensures Latencies(Printed(events), ip) == ErrorLatencies(events, ip)
  {
    forall i | 0 <= i < |events|
      ensures Latencies(Printed(events), ip)[i] == ErrorLatencies(events, ip)[i]
    {
      PrintedError(events[i]);
    }
  }

  lemma {:induction false} PrintedErrors(events: seq<Event>, ip: string)
    requires forall i :: 0 <= i < |events| ==> Printable(events[i])
    ensures HasError(Printed(events), ip) <==>
      exists i :: 0 <= i < |events| && events[i].level == "ERROR" && events[i].ip == ip
  {
    if HasError(Printed(events), ip) {
      var line :| line in Printed(events) && ErrorOf(line).Some? && ErrorOf(line).value.ip == ip;
      var i :| 0 <= i < |events| && Printed(events)[i] == line;
      PrintedError(events[i]);
    }
    if i :| 0 <= i < |events| && events[i].level == "ERROR" && events[i].ip == ip {
      PrintedError(events[i]);
      assert Printed(events)[i] in Printed(events);
    }
  }

  /** End to end: of printed events the parallel pipeline returns, for each address with
      an event of level ERROR and for no other, the sum of the latencies of those events,
      as a word; in a checked build whenever every sum fits one. */
  lemma {:induction false} ErrorsAreSummed(build: Build, cuts: Cuts<string>, events: seq<Event>, ip: string)
    requires forall i :: 0 <= i < |events| ==> Printable(events[i])
    requires Items(cuts) == Printed(events)
    ensures match Parallel(build, cuts)
      case None => build.Checked? && exists x :: Sum(ErrorLatencies(events, x)) >= WORD
      case Some(m) =>
        && At(m, ip) == Sum(ErrorLatencies(events, ip)) % WORD
        && (ip in m <==> exists i :: 0 <= i < |events| && events[i].level == "ERROR" && events[i].ip == ip)
  {
    ParallelTallies(build, cuts);
    PrintedLatencies(events, ip);
    PrintedErrors(events, ip);
    match Parallel(build, cuts)
    case None =>
      var x :| Total(Printed(events), x) >= WORD;
      PrintedLatencies(events, x);
    case Some(m) => assert TalliesAt(build, m, Printed(events), ip);
  }

  // ---------------------------------------------------------------------------
  // Divide and conquer
  // ---------------------------------------------------------------------------

  const THRESHOLD := 4096
  const CHUNK := 1024

  function SumWords(build: Build, data: seq<u64>): Option<u64> {
    if data == [] then Some(0) else
    match SumWords(build, data[..|data| - 1])
    case None => None
    case Some(s) => Add(build, s, data[|data| - 1])
  }

  function RecursiveSum(build: Build, data: seq<u64>): Option<u64>
    decreases |data|
  {
    if |data| <= THRESHOLD then SumWords(build, data) else
    var mid := |data| / 2;
    match (RecursiveSum(build, data[..mid]), RecursiveSum(build, data[mid..]))
    case (Some(a), Some(b)) => Add(build, a, b)
    case _ => None
  }

  /** The exact sum as a word, or a panic where it does not fit. */
  function AsWord(build: Build, n: nat): Option<u64> {
    if n >= WORD && build.Checked? then None else Some(n % WORD)
  }

  lemma {:induction false} AddIsAsWord(build: Build, a: nat, b: nat)
    requires AsWord(build, a).Some? && AsWord(build, b).Some?
    ensures Add(build, AsWord(build, a).value, AsWord(build, b).value) == AsWord(build, a + b)
  {
    MergeAt(build, a % WORD, b % WORD, a, b);
  }

  lemma {:induction false} AddWord(build: Build, a: nat, b: u64)
    requires AsWord(build, a).Some?
    ensures Add(build, AsWord(build, a).value, b) == AsWord(build, a + b)
  {
    assert AsWord(build, b) == Some(b);
    AddIsAsWord(build, a, b);
  }

  lemma {:induction false} SumWordsIsSum(build: Build, data: seq<u64>)
    ensures SumWords(build, data) == AsWord(build, Sum(data))
  {
    if data == [] {
    } else {
      var rest := data[..|data| - 1];
      SumWordsIsSum(build, rest);
      if SumWords(build, rest).Some? {
        AddWord(build, Sum(rest), data[|data| - 1]);
      }
    }
  }

  lemma {:induction false} RecursiveSumIsSum(build: Build, data: seq<u64>)
    ensures RecursiveSum(build, data) == SumWords(build, data) == AsWord(build, Sum(data))
    decreases |data|
  {
    SumWordsIsSum(build, data);
    if |data| > THRESHOLD {
      var mid := |data| / 2;
      var l, r := data[..mid], data[mid..];
      RecursiveSumIsSum(build, l);
      RecursiveSumIsSum(build, r);
      assert data == l + r;
      SumConcat(l, r);
      if AsWord(build, Sum(l)).Some? && AsWord(build, Sum(r)).Some? {
        AddIsAsWord(build, Sum(l), Sum(r));
      }
    }
  }

  predicate IsGreatest(data: seq<u32>, m: u32) {
    m in data && forall x :: x in data ==> x <= m
  }

  function MaxOf(data: seq<u32>): Option<u32> {
    if data == [] then None else Larger(MaxOf(data[..|data| - 1]), Some(data[|data| - 1]))
  }

  function Larger(a: Option<u32>, b: Option<u32>): Option<u32> {
    if a == None then b else if b == None then a else if a.value > b.value then a else b
  }

  function OrZero(m: Option<u32>): u32 {
    if m.Some? then m.value else 0
  }

  function Chunks(data: seq<u32>): seq<seq<u32>> {
    if data == [] then []
    else if |data| <= CHUNK then [data]
    else [data[..CHUNK]] + Chunks(data[CHUNK..])
  }

  function ChunkMaxima(chunks: seq<seq<u32>>): seq<u32> {
    seq(|chunks|, i requires 0 <= i < |chunks| => OrZero(MaxOf(chunks[i])))
  }

  function ParallelMax(cuts: Cuts<u32>): Option<u32> {
    match cuts
    case Identity => None
    case Piece(items) => MaxOf(items)
    case Both(l, r) => Larger(ParallelMax(l), ParallelMax(r))
  }

  lemma {:induction false} MaxOfIsGreatest(data: seq<u32>)
    ensures if data == [] then MaxOf(data) == None else MaxOf(data).Some? && IsGreatest(data, MaxOf(data).value)
  {
    if data == [] {
    } else {
      MaxOfIsGreatest(data[..|data| - 1]);
      assert data == data[..|data| - 1] + [data[|data| - 1]];
    }
  }

  lemma {:induction false} ParallelMaxIsGreatest(cuts: Cuts<u32>)
    ensures var data := Items(cuts);
      if data == [] then ParallelMax(cuts) == None
      else ParallelMax(cuts).Some? && IsGreatest(data, ParallelMax(cuts).value)
  {
    match cuts
    case Identity =>
    case Piece(items) => MaxOfIsGreatest(items);
    case Both(l, r) =>
      ParallelMaxIsGreatest(l);
      ParallelMaxIsGreatest(r);
  }

  lemma {:induction false} ChunksCover(data: seq<u32>)
    ensures forall c :: c in Chunks(data) ==> c != [] && |c| <= CHUNK
    ensures forall x :: x in data <==> exists c :: c in Chunks(data) && x in c
    decreases |data|
  {
    if |data| > CHUNK {
      var head, tail := data[..CHUNK], data[CHUNK..];
      ChunksCover(tail);
      assert data == head + tail;
      assert forall c :: c in Chunks(data) <==> c == head || c in Chunks(tail);
    } else if data != [] {
      assert data in Chunks(data);
    }
  }

  /** However the chunk maxima are reduced, the result is the largest element, or 0
      for no data. */
  lemma {:induction false} ChunkedMaxIsGreatest(data: seq<u32>, cuts: Cuts<u32>)
    requires Items(cuts) == ChunkMaxima(Chunks(data))
    ensures if data == [] then OrZero(ParallelMax(cuts)) == 0 else IsGreatest(data, OrZero(ParallelMax(cuts)))
  {
    ParallelMaxIsGreatest(cuts);
    var chunks := Chunks(data);
    ChunksCover(data);
    if data != [] {
      var maxima := ChunkMaxima(chunks);
      forall i | 0 <= i < |chunks|
        ensures IsGreatest(chunks[i], maxima[i])
      {
        MaxOfIsGreatest(chunks[i]);
      }
      forall x | x in data
        ensures x <= OrZero(ParallelMax(cuts))
      {
        var i :| 0 <= i < |chunks| && x in chunks[i];
        assert maxima[i] in maxima;
      }
      assert data[0] in data;
      var i :| 0 <= i < |maxima| && maxima[i] == OrZero(ParallelMax(cuts));
      assert maxima[i] in chunks[i];
    }
  }
}
