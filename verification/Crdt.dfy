/** Convergent counters and an observed-remove set, merged without coordination. */
module Crdt {
  import opened Sums
  import opened Words

  // ---------------------------------------------------------------------------
  // Counters
  // ---------------------------------------------------------------------------

  type Counts = map<string, nat>

  function At(c: Counts, id: string): nat { if id in c then c[id] else 0 }

  function Max(a: nat, b: nat): nat { if a < b then b else a }

  function Incremented(c: Counts, id: string): Counts { c[id := At(c, id) + 1] }

  /** Merge: the greater count, entry by entry. */
  function Join(a: Counts, b: Counts): Counts {
    map id | id in a.Keys + b.Keys :: Max(At(a, id), At(b, id))
  }

  ghost function Total(c: Counts): nat {
    if c == map[] then 0 else
    var id :| id in c;
    c[id] + Total(c - {id})
  }

  class GCounter {
    const nodeId: string
    var counters: Counts

    constructor (nodeId: string)
      ensures this.nodeId == nodeId && counters == map[]
    {
      this.nodeId, this.counters := nodeId, map[];
    }

    method Increment()
      modifies this
      ensures counters == Incremented(old(counters), nodeId)
    {
      if nodeId !in counters {
        counters := counters[nodeId := 0];
      }
      counters := counters[nodeId := counters[nodeId] + 1];
    }

    method Merge(other: Counts)
      modifies this
      ensures counters == Join(old(counters), other)
    {
      var left := other.Keys;
      while left != {}
        invariant left <= other.Keys
        invariant counters.Keys == old(counters).Keys + (other.Keys - left)
        invariant forall id :: id in counters ==>
          counters[id] == if id in left then At(old(counters), id) else Max(At(old(counters), id), At(other, id))
        decreases left
      {
        var id :| id in left;
        if id !in counters {
          counters := counters[id := 0];
        }
        counters := counters[id := Max(counters[id], other[id])];
        left := left - {id};
      }
    }
  }

  class PNCounter {
    const p: GCounter
    const n: GCounter

    ghost predicate Valid() { p != n && p.nodeId == n.nodeId }

    ghost function Value(): PN
      reads p, n
    {
      PN(p.counters, n.counters)
    }

    constructor (nodeId: string)
      ensures Valid() && fresh(p) && fresh(n) && p.nodeId == nodeId && Value() == PN(map[], map[])
    {
      p := new GCounter(nodeId);
      n := new GCounter(nodeId);
    }

    method Increment()
      requires Valid()
      modifies p
      ensures Value() == old(Value()).(p := Incremented(old(p.counters), p.nodeId))
    {
      p.Increment();
    }

    method Decrement()
      requires Valid()
      modifies n
      ensures Value() == old(Value()).(n := Incremented(old(n.counters), n.nodeId))
    {
      n.Increment();
    }

    method Merge(other: PN)
      requires Valid()
      modifies p, n
      ensures Value() == JoinPN(old(Value()), other)
    {
      p.Merge(other.p);
      n.Merge(other.n);
    }
  }

  datatype PN = PN(p: Counts, n: Counts)

  function JoinPN(a: PN, b: PN): PN { PN(Join(a.p, b.p), Join(a.n, b.n)) }

  ghost function Reading(c: PN): int { Total(c.p) - Total(c.n) }

  lemma {:induction false} JoinAt(a: Counts, b: Counts, id: string)
    ensures id in Join(a, b) <==> id in a || id in b
    ensures At(Join(a, b), id) == Max(At(a, id), At(b, id))
  {
  }

  lemma {:induction false} SameCounts(a: Counts, b: Counts)
    requires forall id :: (id in a <==> id in b) && At(a, id) == At(b, id)
    ensures a == b
  {
    assert forall id :: id in a ==> a[id] == At(a, id) == At(b, id) == b[id];
  }

  lemma {:induction false} JoinCommutes(a: Counts, b: Counts)
    ensures Join(a, b) == Join(b, a) && Join(a, a) == a
  {
    forall id ensures (id in Join(a, b) <==> id in Join(b, a)) && At(Join(a, b), id) == At(Join(b, a), id) {
      JoinAt(a, b, id);
      JoinAt(b, a, id);
    }
    SameCounts(Join(a, b), Join(b, a));
    SameCounts(Join(a, a), a);
  }

  lemma {:induction false} JoinAssociates(a: Counts, b: Counts, c: Counts)
    ensures Join(Join(a, b), c) == Join(a, Join(b, c))
  {
    var l, r := Join(Join(a, b), c), Join(a, Join(b, c));
    forall id ensures (id in l <==> id in r) && At(l, id) == At(r, id) {
      JoinAt(a, b, id);
      JoinAt(b, c, id);
      JoinAt(Join(a, b), c, id);
      JoinAt(a, Join(b, c), id);
    }
    SameCounts(l, r);
  }

  /** The merge is a join: commutative, associative and idempotent. */
  lemma {:induction false} JoinLaws(a: PN, b: PN, c: PN)
    ensures JoinPN(a, b) == JoinPN(b, a)
    ensures JoinPN(JoinPN(a, b), c) == JoinPN(a, JoinPN(b, c))
    ensures JoinPN(a, a) == a
  {
    JoinCommutes(a.p, b.p);
    JoinCommutes(a.n, b.n);
    JoinAssociates(a.p, b.p, c.p);
    JoinAssociates(a.n, b.n, c.n);
  }

  // ---------------------------------------------------------------------------
  // Runs: increments, decrements and merges of stale, duplicated or reordered snapshots
  // ---------------------------------------------------------------------------

  datatype CounterEvent = Inc(j: nat) | Dec(j: nat) | Snap(j: nat) | Merge(i: nat, snapshot: nat)

  /** `incs[j]` and `decs[j]` count the calls replica j received. */
  datatype Counters = Counters(
    ids: seq<string>, replicas: seq<PN>, snapshots: seq<PN>, incs: seq<nat>, decs: seq<nat>)

  predicate CounterEnabled(s: Counters, e: CounterEvent) {
    match e
    case Merge(i, k) => i < |s.replicas| && k < |s.snapshots|
    case _ => e.j < |s.replicas| == |s.ids| == |s.incs| == |s.decs|
  }

  function CounterStep(s: Counters, e: CounterEvent): Counters
    requires CounterEnabled(s, e)
  {
    match e
    case Inc(j) =>
      s.(replicas := s.replicas[j := s.replicas[j].(p := Incremented(s.replicas[j].p, s.ids[j]))],
         incs := s.incs[j := s.incs[j] + 1])
    case Dec(j) =>
      s.(replicas := s.replicas[j := s.replicas[j].(n := Incremented(s.replicas[j].n, s.ids[j]))],
         decs := s.decs[j := s.decs[j] + 1])
    case Snap(j) => s.(snapshots := s.snapshots + [s.replicas[j]])
    case Merge(i, k) => s.(replicas := s.replicas[i := JoinPN(s.replicas[i], s.snapshots[k])])
  }

  predicate CounterRun(s: Counters, es: seq<CounterEvent>)
    decreases |es|
  {
    es == [] || (CounterEnabled(s, es[0]) && CounterRun(CounterStep(s, es[0]), es[1..]))
  }

  function AfterCounterRun(s: Counters, es: seq<CounterEvent>): Counters
    requires CounterRun(s, es)
    decreases |es|
  {
    if es == [] then s else AfterCounterRun(CounterStep(s, es[0]), es[1..])
  }

  function NewCounters(ids: seq<string>): Counters {
    Counters(ids, seq(|ids|, _ => PN(map[], map[])), [], seq(|ids|, _ => 0), seq(|ids|, _ => 0))
  }

  ghost predicate DistinctIds(ids: seq<string>) {
    forall i, j :: 0 <= i < j < |ids| ==> ids[i] != ids[j]
  }

  /** No entry runs ahead of the replica it counts for. */
  ghost predicate Within(c: Counts, ids: seq<string>, own: seq<nat>)
    requires |ids| == |own|
  {
    && (forall id :: id in c ==> id in ids)
    && forall j :: 0 <= j < |ids| ==> At(c, ids[j]) <= own[j]
  }

  lemma {:induction false} WithinJoin(a: Counts, b: Counts, ids: seq<string>, own: seq<nat>)
    requires |ids| == |own| && Within(a, ids, own) && Within(b, ids, own)
    ensures Within(Join(a, b), ids, own)
    ensures forall j :: 0 <= j < |ids| ==> At(Join(a, b), ids[j]) == Max(At(a, ids[j]), At(b, ids[j]))
  {
  }

  lemma {:induction false} IncrementWithin(c: Counts, ids: seq<string>, own: seq<nat>, j: nat)
    requires |ids| == |own| && j < |ids| && DistinctIds(ids) && Within(c, ids, own) && At(c, ids[j]) == own[j]
    ensures Within(Incremented(c, ids[j]), ids, own[j := own[j] + 1])
    ensures At(Incremented(c, ids[j]), ids[j]) == own[j] + 1
  {
  }

  /** The invariant on one side, increments or decrements, of every replica and snapshot. */
  ghost predicate SideInv(ids: seq<string>, sides: seq<Counts>, snapshots: seq<Counts>, own: seq<nat>) {
    && DistinctIds(ids) && |sides| == |ids| == |own|
    && (forall i :: 0 <= i < |sides| ==> Within(sides[i], ids, own) && At(sides[i], ids[i]) == own[i])
    && (forall k :: 0 <= k < |snapshots| ==> Within(snapshots[k], ids, own))
  }

  ghost predicate CounterInv(s: Counters) {
    && SideInv(s.ids, Ps(s.replicas), Ps(s.snapshots), s.incs)
    && SideInv(s.ids, Ns(s.replicas), Ns(s.snapshots), s.decs)
  }

  lemma {:induction false} IncrementKeepsSide(
      ids: seq<string>, sides: seq<Counts>, snapshots: seq<Counts>, own: seq<nat>, j: nat)
    requires SideInv(ids, sides, snapshots, own) && j < |ids|
    ensures SideInv(ids, sides[j := Incremented(sides[j], ids[j])], snapshots, own[j := own[j] + 1])
  {
    IncrementWithin(sides[j], ids, own, j);
  }

  lemma {:induction false} MergeKeepsSide(
      ids: seq<string>, sides: seq<Counts>, snapshots: seq<Counts>, own: seq<nat>, i: nat, k: nat)
    requires SideInv(ids, sides, snapshots, own) && i < |ids| && k < |snapshots|
    ensures SideInv(ids, sides[i := Join(sides[i], snapshots[k])], snapshots, own)
  {
    WithinJoin(sides[i], snapshots[k], ids, own);
  }

  function Ps(s: seq<PN>): seq<Counts> { seq(|s|, i requires 0 <= i < |s| => s[i].p) }

  function Ns(s: seq<PN>): seq<Counts> { seq(|s|, i requires 0 <= i < |s| => s[i].n) }

  lemma {:induction false} SidesUpdate(s: seq<PN>, i: nat, x: PN)
    requires i < |s|
    ensures Ps(s[i := x]) == Ps(s)[i := x.p] && Ns(s[i := x]) == Ns(s)[i := x.n]
    ensures Ps(s)[i := s[i].p] == Ps(s) && Ns(s)[i := s[i].n] == Ns(s)
  {
  }

  lemma {:induction false} SidesAppend(s: seq<PN>, x: PN)
    ensures Ps(s + [x]) == Ps(s) + [x.p] && Ns(s + [x]) == Ns(s) + [x.n]
  {
  }

  lemma {:induction false} IncKeeps(s: Counters, j: nat)
    requires CounterInv(s) && j < |s.replicas|
    ensures CounterInv(CounterStep(s, Inc(j)))
  {
    SidesUpdate(s.replicas, j, CounterStep(s, Inc(j)).replicas[j]);
    IncrementKeepsSide(s.ids, Ps(s.replicas), Ps(s.snapshots), s.incs, j);
  }

  lemma {:induction false} DecKeeps(s: Counters, j: nat)
    requires CounterInv(s) && j < |s.replicas|
    ensures CounterInv(CounterStep(s, Dec(j)))
  {
    SidesUpdate(s.replicas, j, CounterStep(s, Dec(j)).replicas[j]);
    IncrementKeepsSide(s.ids, Ns(s.replicas), Ns(s.snapshots), s.decs, j);
  }

  lemma {:induction false} MergeKeeps(s: Counters, i: nat, k: nat)
    requires CounterInv(s) && i < |s.replicas| && k < |s.snapshots|
    ensures CounterInv(CounterStep(s, Merge(i, k)))
  {
    SidesUpdate(s.replicas, i, JoinPN(s.replicas[i], s.snapshots[k]));
    MergeKeepsSide(s.ids, Ps(s.replicas), Ps(s.snapshots), s.incs, i, k);
    MergeKeepsSide(s.ids, Ns(s.replicas), Ns(s.snapshots), s.decs, i, k);
  }

  lemma {:induction false} CounterStepKeeps(s: Counters, e: CounterEvent)
    requires CounterEnabled(s, e) && CounterInv(s)
    ensures CounterInv(CounterStep(s, e))
  {
    match e {
      case Inc(j) => IncKeeps(s, j);
      case Dec(j) => DecKeeps(s, j);
      case Snap(j) =>
        SidesAppend(s.snapshots, s.replicas[j]);
        assert Ps(s.replicas)[j] == s.replicas[j].p && Ns(s.replicas)[j] == s.replicas[j].n;
      case Merge(i, k) => MergeKeeps(s, i, k);
    }
  }

  /** In every run, a replica's entry for j never exceeds j's own entry, which
      is the number of calls j received; snapshots in flight likewise. */
  lemma {:induction false} CounterRunKeeps(s: Counters, es: seq<CounterEvent>)
    requires CounterRun(s, es) && CounterInv(s)
    ensures CounterInv(AfterCounterRun(s, es)) && AfterCounterRun(s, es).ids == s.ids
    decreases |es|
  {
    if es == [] {
    } else {
      CounterStepKeeps(s, es[0]);
      CounterRunKeeps(CounterStep(s, es[0]), es[1..]);
    }
  }

  lemma {:induction false} TotalWithout(c: Counts, id: string)
    requires id in c
    ensures Total(c) == c[id] + Total(c - {id})
    decreases |c|
  {
    var x :| x in c && Total(c) == c[x] + Total(c - {x});
    if x != id {
      assert (c - {x}).Keys == c.Keys - {x};
      assert |(c - {x}).Keys| < |c.Keys|;
      TotalWithout(c - {x}, id);
      TotalWithout2(c, x, id);
      assert c - {x} - {id} == c - {id} - {x};
    }
  }

  lemma {:induction false} TotalWithout2(c: Counts, x: string, id: string)
    requires x in c && id in c && x != id
    ensures Total(c - {id}) == c[x] + Total(c - {id} - {x})
    decreases |c|, 0
  {
    assert (c - {id}).Keys == c.Keys - {id};
    assert |(c - {id}).Keys| < |c.Keys|;
    TotalWithout(c - {id}, x);
  }

  lemma {:induction false} DropLast(c: Counts, ids: seq<string>, own: seq<nat>)
    requires 0 < |ids| == |own| && DistinctIds(ids) && Within(c, ids, own)
    ensures Within(c - {ids[|ids| - 1]}, ids[..|ids| - 1], own[..|ids| - 1])
    ensures forall j :: 0 <= j < |ids| - 1 ==> At(c - {ids[|ids| - 1]}, ids[j]) == At(c, ids[j])
  {
    var rest, last := c - {ids[|ids| - 1]}, |ids| - 1;
    forall x | x in rest ensures x in ids[..last] {
      assert x in ids;
    }
  }

  lemma {:induction false} TotalByIds(c: Counts, ids: seq<string>, own: seq<nat>)
    requires |ids| == |own| && DistinctIds(ids) && Within(c, ids, own)
    ensures Total(c) <= Sum(own)
    ensures (forall j :: 0 <= j < |ids| ==> At(c, ids[j]) == own[j]) ==> Total(c) == Sum(own)
    decreases |ids|
  {
    if ids == [] {
      assert c == map[];
    } else {
      var last := |ids| - 1;
      DropLast(c, ids, own);
      TotalByIds(c - {ids[last]}, ids[..last], own[..last]);
      if ids[last] in c {
        TotalWithout(c, ids[last]);
      } else {
        assert c - {ids[last]} == c;
      }
    }
  }

  /** Replica i's state has taken in the state of every replica. */
  ghost predicate AbsorbedAll(s: Counters, i: nat)
    requires i < |s.replicas|
  {
    forall j :: 0 <= j < |s.replicas| ==> JoinPN(s.replicas[i], s.replicas[j]) == s.replicas[i]
  }

  lemma {:induction false} AbsorbedSide(
      sides: seq<Counts>, ids: seq<string>, snapshots: seq<Counts>, own: seq<nat>, i: nat)
    requires SideInv(ids, sides, snapshots, own) && i < |ids|
    requires forall j :: 0 <= j < |ids| ==> Join(sides[i], sides[j]) == sides[i]
    ensures Total(sides[i]) == Sum(own)
  {
    forall j | 0 <= j < |ids| ensures At(sides[i], ids[j]) == own[j] {
      JoinAt(sides[i], sides[j], ids[j]);
    }
    TotalByIds(sides[i], ids, own);
  }

  /** No replica ever reads more increments or decrements than were made, and one
      that has absorbed every replica's state reads exactly increments minus decrements. */
  lemma {:induction false} CountersConverge(ids: seq<string>, es: seq<CounterEvent>, i: nat)
    requires DistinctIds(ids) && CounterRun(NewCounters(ids), es) && i < |ids|
    ensures var s := AfterCounterRun(NewCounters(ids), es);
      && i < |s.replicas|
      && Total(s.replicas[i].p) <= Sum(s.incs) && Total(s.replicas[i].n) <= Sum(s.decs)
      && (AbsorbedAll(s, i) ==> Reading(s.replicas[i]) == Sum(s.incs) - Sum(s.decs))
  {
    CounterRunKeeps(NewCounters(ids), es);
    var s := AfterCounterRun(NewCounters(ids), es);
    var ps, ns := Ps(s.replicas), Ns(s.replicas);
    TotalByIds(ps[i], ids, s.incs);
    TotalByIds(ns[i], ids, s.decs);
    if AbsorbedAll(s, i) {
      forall j | 0 <= j < |ids| ensures Join(ps[i], ps[j]) == ps[i] && Join(ns[i], ns[j]) == ns[i] {
        assert JoinPN(s.replicas[i], s.replicas[j]) == s.replicas[i];
      }
      AbsorbedSide(ps, ids, Ps(s.snapshots), s.incs, i);
      AbsorbedSide(ns, ids, Ns(s.snapshots), s.decs, i);
    }
  }

  // ---------------------------------------------------------------------------
  // Observed-remove set
  // ---------------------------------------------------------------------------

  type Elements = map<string, set<string>>

  function Tags(e: Elements, item: string): set<string> { if item in e then e[item] else {} }

  function Tag(id: string, counter: nat): string { id + ":" + Decimal(counter) }

  function AddTag(e: Elements, item: string, tag: string): Elements { e[item := Tags(e, item) + {tag}] }

  function Clear(e: Elements, item: string): Elements { if item in e then e[item := {}] else e }

  predicate Contains(e: Elements, item: string) { Tags(e, item) != {} }

  function Union(a: Elements, b: Elements): Elements {
    map item | item in a.Keys + b.Keys :: Tags(a, item) + Tags(b, item)
  }

  class OrSet {
    const nodeId: string
    var counter: nat
    var elements: Elements

    constructor (nodeId: string)
      ensures this.nodeId == nodeId && counter == 0 && elements == map[]
    {
      this.nodeId, counter, elements := nodeId, 0, map[];
    }

    method Add(item: string)
      modifies this
      ensures counter == old(counter) + 1
      ensures elements == AddTag(old(elements), item, Tag(nodeId, counter))
    {
      counter := counter + 1;
      var tag := nodeId + ":" + Decimal(counter);
      if item !in elements {
        elements := elements[item := {}];
      }
      elements := elements[item := elements[item] + {tag}];
    }

    method Remove(item: string)
      modifies this
      ensures counter == old(counter) && elements == Clear(old(elements), item)
    {
      if item in elements {
        elements := elements[item := {}];
      }
    }

    method Merge(other: Elements)
      modifies this
      ensures counter == old(counter) && elements == Union(old(elements), other)
    {
      var left := other.Keys;
      while left != {}
        invariant left <= other.Keys && counter == old(counter)
        invariant forall x :: x in elements <==> x in old(elements) || (x in other && x !in left)
        invariant forall x :: x in elements ==>
          elements[x] == Tags(old(elements), x) + if x in left then {} else Tags(other, x)
        decreases left
      {
        var item :| item in left;
        var tags := if item in elements then elements[item] else {};
        elements := elements[item := tags + other[item]];
        left := left - {item};
      }
      UnionCharacterized(elements, old(elements), other);
    }
  }

  lemma {:induction false} UnionTags(a: Elements, b: Elements, item: string)
    ensures item in Union(a, b) <==> item in a || item in b
    ensures Tags(Union(a, b), item) == Tags(a, item) + Tags(b, item)
  {
  }

  lemma {:induction false} UnionCharacterized(u: Elements, a: Elements, b: Elements)
    requires forall x :: x in u <==> x in a || x in b
    requires forall x :: x in u ==> u[x] == Tags(a, x) + Tags(b, x)
    ensures u == Union(a, b)
  {
  }

  lemma {:induction false} SameElements(a: Elements, b: Elements)
    requires forall x :: (x in a <==> x in b) && Tags(a, x) == Tags(b, x)
    ensures a == b
  {
    assert forall x :: x in a ==> a[x] == Tags(a, x) == Tags(b, x) == b[x];
  }

  lemma {:induction false} UnionCommutes(a: Elements, b: Elements)
    ensures Union(a, b) == Union(b, a) && Union(a, a) == a
  {
    forall x ensures (x in Union(a, b) <==> x in Union(b, a)) && Tags(Union(a, b), x) == Tags(Union(b, a), x) {
      UnionTags(a, b, x);
      UnionTags(b, a, x);
    }
    SameElements(Union(a, b), Union(b, a));
    forall x ensures (x in Union(a, a) <==> x in a) && Tags(Union(a, a), x) == Tags(a, x) {
      UnionTags(a, a, x);
    }
    SameElements(Union(a, a), a);
  }

  lemma {:induction false} UnionAssociates(a: Elements, b: Elements, c: Elements)
    ensures Union(Union(a, b), c) == Union(a, Union(b, c))
  {
    var l, r := Union(Union(a, b), c), Union(a, Union(b, c));
    forall x ensures (x in l <==> x in r) && Tags(l, x) == Tags(r, x) {
      UnionTags(a, b, x);
      UnionTags(b, c, x);
      UnionTags(Union(a, b), c, x);
      UnionTags(a, Union(b, c), x);
    }
    SameElements(l, r);
  }

  /** The merge of sets is a join too. */
  lemma {:induction false} UnionLaws(a: Elements, b: Elements, c: Elements)
    ensures Union(a, b) == Union(b, a)
    ensures Union(Union(a, b), c) == Union(a, Union(b, c))
    ensures Union(a, a) == a
  {
    UnionCommutes(a, b);
    UnionAssociates(a, b, c);
  }

  /** Add wins, and only adds win: after merging a state in which the item was
      cleared with another state, the item is present exactly when the other
      state has it. There are no tombstones, so an older snapshot brings it back. */
  lemma {:induction false} MergeAfterRemove(a: Elements, b: Elements, item: string)
    ensures Contains(Union(Clear(b, item), a), item) <==> Contains(a, item)
    ensures forall tag :: Contains(Union(Clear(b, item), AddTag(a, item, tag)), item)
  {
    assert Tags(Union(Clear(b, item), a), item) == Tags(a, item);
    forall tag ensures Contains(Union(Clear(b, item), AddTag(a, item, tag)), item) {
      assert tag in Tags(Union(Clear(b, item), AddTag(a, item, tag)), item);
    }
  }

  /** What adding, removing and merging do to the tags of any item x, and to the items known. */
  lemma {:induction false} TagsAfter(e: Elements, other: Elements, item: string, tag: string, x: string)
    ensures Tags(AddTag(e, item, tag), x) == Tags(e, x) + (if x == item then {tag} else {})
    ensures Tags(Clear(e, item), x) == if x == item then {} else Tags(e, x)
    ensures Tags(Union(e, other), x) == Tags(e, x) + Tags(other, x)
    ensures AddTag(e, item, tag).Keys == e.Keys + {item} && Clear(e, item).Keys == e.Keys
    ensures Contains(AddTag(e, item, tag), item) && !Contains(Clear(e, item), item)
  {
    assert tag in Tags(AddTag(e, item, tag), item);
  }

  /** A tag names its replica and its counter: the last colon separates them. */
  lemma {:induction false} TagInjective(a: string, m: nat, b: string, n: nat)
    requires Tag(a, m) == Tag(b, n)
    ensures a == b && m == n
  {
    assert Tag(a, m) == a + [':'] + Decimal(m) && Tag(b, n) == b + [':'] + Decimal(n);
    NumberedInjective(a, m, b, n, ':');
  }

  datatype SetEvent =
    | Add(j: nat, item: string)
    | Remove(j: nat, item: string)
    | SnapSet(j: nat)
    | MergeSet(i: nat, snapshot: nat)

  datatype Replica = Replica(counter: nat, elements: Elements)

  /** `minted` records the item of every tag ever made. */
  datatype Sets = Sets(ids: seq<string>, replicas: seq<Replica>, snapshots: seq<Elements>, minted: map<string, string>)

  predicate SetEnabled(s: Sets, e: SetEvent) {
    match e
    case MergeSet(i, k) => i < |s.replicas| && k < |s.snapshots|
    case _ => e.j < |s.replicas| == |s.ids|
  }

  function SetStep(s: Sets, e: SetEvent): Sets
    requires SetEnabled(s, e)
  {
    match e
    case Add(j, item) =>
      var c := s.replicas[j].counter + 1;
      var tag := Tag(s.ids[j], c);
      s.(replicas := s.replicas[j := Replica(c, AddTag(s.replicas[j].elements, item, tag))],
         minted := s.minted[tag := item])
    case Remove(j, item) =>
      s.(replicas := s.replicas[j := s.replicas[j].(elements := Clear(s.replicas[j].elements, item))])
    case SnapSet(j) => s.(snapshots := s.snapshots + [s.replicas[j].elements])
    case MergeSet(i, k) =>
      s.(replicas := s.replicas[i := s.replicas[i].(elements := Union(s.replicas[i].elements, s.snapshots[k]))])
  }

  predicate SetRun(s: Sets, es: seq<SetEvent>)
    decreases |es|
  {
    es == [] || (SetEnabled(s, es[0]) && SetRun(SetStep(s, es[0]), es[1..]))
  }

  function AfterSetRun(s: Sets, es: seq<SetEvent>): Sets
    requires SetRun(s, es)
    decreases |es|
  {
    if es == [] then s else AfterSetRun(SetStep(s, es[0]), es[1..])
  }

  function NewSets(ids: seq<string>): Sets {
    Sets(ids, seq(|ids|, _ => Replica(0, map[])), [], map[])
  }

  /** Every live tag was minted for the item that carries it. */
  ghost predicate FromMint(e: Elements, minted: map<string, string>) {
    forall item, tag :: tag in Tags(e, item) ==> tag in minted && minted[tag] == item
  }

  /** A minted tag carries a counter its replica has reached. */
  ghost predicate MintedBy(tag: string, ids: seq<string>, replicas: seq<Replica>)
    requires |ids| == |replicas|
  {
    exists j, c: nat :: 0 <= j < |ids| && 1 <= c <= replicas[j].counter && tag == Tag(ids[j], c)
  }

  ghost predicate SetInv(s: Sets) {
    && DistinctIds(s.ids) && |s.replicas| == |s.ids|
    && (forall tag :: tag in s.minted ==> MintedBy(tag, s.ids, s.replicas))
    && (forall i :: 0 <= i < |s.replicas| ==> FromMint(s.replicas[i].elements, s.minted))
    && (forall k :: 0 <= k < |s.snapshots| ==> FromMint(s.snapshots[k], s.minted))
  }

  /** The tag of the next add at j is held by no replica and no snapshot. */
  lemma {:induction false} NextTagIsFresh(s: Sets, j: nat)
    requires SetInv(s) && j < |s.ids|
    ensures var tag := Tag(s.ids[j], s.replicas[j].counter + 1);
      && tag !in s.minted
      && (forall i, item :: 0 <= i < |s.replicas| ==> tag !in Tags(s.replicas[i].elements, item))
      && (forall k, item :: 0 <= k < |s.snapshots| ==> tag !in Tags(s.snapshots[k], item))
  {
    var tag := Tag(s.ids[j], s.replicas[j].counter + 1);
    if tag in s.minted {
      var i, c: nat :| 0 <= i < |s.ids| && 1 <= c <= s.replicas[i].counter && tag == Tag(s.ids[i], c);
      TagInjective(s.ids[j], s.replicas[j].counter + 1, s.ids[i], c);
    }
  }

  lemma {:induction false} MintedStays(tag: string, ids: seq<string>, replicas: seq<Replica>, replicas': seq<Replica>)
    requires |ids| == |replicas| == |replicas'| && MintedBy(tag, ids, replicas)
    requires forall i :: 0 <= i < |ids| ==> replicas[i].counter <= replicas'[i].counter
    ensures MintedBy(tag, ids, replicas')
  {
    var i, c: nat :| 0 <= i < |ids| && 1 <= c <= replicas[i].counter && tag == Tag(ids[i], c);
    assert c <= replicas'[i].counter;
  }

  lemma {:induction false} AddFromMint(e: Elements, minted: map<string, string>, item: string, tag: string)
    requires FromMint(e, minted) && tag !in minted
    ensures FromMint(e, minted[tag := item]) && FromMint(AddTag(e, item, tag), minted[tag := item])
  {
    forall x ensures Tags(AddTag(e, item, tag), x) == Tags(e, x) + if x == item then {tag} else {} {
    }
  }

  lemma {:induction false} AddKeepsMint(s: Sets, j: nat, item: string)
    requires SetInv(s) && j < |s.ids|
    ensures SetInv(SetStep(s, Add(j, item)))
  {
    NextTagIsFresh(s, j);
    var s' := SetStep(s, Add(j, item));
    var tag := Tag(s.ids[j], s'.replicas[j].counter);
    forall t | t in s'.minted ensures MintedBy(t, s'.ids, s'.replicas) {
      if t in s.minted {
        MintedStays(t, s.ids, s.replicas, s'.replicas);
      } else {
        assert t == tag;
      }
    }
    forall i | 0 <= i < |s.replicas| ensures FromMint(s'.replicas[i].elements, s'.minted) {
      AddFromMint(s.replicas[i].elements, s.minted, item, tag);
    }
    forall k | 0 <= k < |s.snapshots| ensures FromMint(s'.snapshots[k], s'.minted) {
      AddFromMint(s.snapshots[k], s.minted, item, tag);
    }
  }

  lemma {:induction false} OtherFromMint(a: Elements, b: Elements, minted: map<string, string>, item: string)
    requires FromMint(a, minted)
    ensures FromMint(Clear(a, item), minted)
    ensures FromMint(b, minted) ==> FromMint(Union(a, b), minted)
  {
    forall x ensures Tags(Clear(a, item), x) <= Tags(a, x) {
    }
    forall x ensures Tags(Union(a, b), x) == Tags(a, x) + Tags(b, x) {
    }
  }

  lemma {:induction false} OthersKeepMint(s: Sets, e: SetEvent)
    requires SetEnabled(s, e) && SetInv(s) && !e.Add?
    ensures SetInv(SetStep(s, e))
  {
    var s' := SetStep(s, e);
    forall t | t in s'.minted ensures MintedBy(t, s'.ids, s'.replicas) {
      MintedStays(t, s.ids, s.replicas, s'.replicas);
    }
    match e {
      case Remove(j, item) => OtherFromMint(s.replicas[j].elements, map[], s.minted, item);
      case MergeSet(i, k) => OtherFromMint(s.replicas[i].elements, s.snapshots[k], s.minted, "");
      case _ =>
    }
  }

  lemma {:induction false} SetStepKeeps(s: Sets, e: SetEvent)
    requires SetEnabled(s, e) && SetInv(s)
    ensures SetInv(SetStep(s, e))
  {
    if e.Add? {
      AddKeepsMint(s, e.j, e.item);
    } else {
      OthersKeepMint(s, e);
    }
  }

  lemma {:induction false} SetRunKeeps(s: Sets, es: seq<SetEvent>)
    requires SetRun(s, es) && SetInv(s)
    ensures SetInv(AfterSetRun(s, es)) && AfterSetRun(s, es).ids == s.ids
    decreases |es|
  {
    if es == [] {
    } else {
      SetStepKeeps(s, es[0]);
      SetRunKeeps(SetStep(s, es[0]), es[1..]);
    }
  }

  /** In every run of adds, removes and merges of stale snapshots, each add mints
      a tag that no replica and no snapshot in flight holds. */
  lemma {:induction false} AddsMintFreshTags(ids: seq<string>, es: seq<SetEvent>, j: nat)
    requires DistinctIds(ids) && SetRun(NewSets(ids), es) && j < |ids|
    ensures var s := AfterSetRun(NewSets(ids), es);
      && j < |s.replicas|
      && var tag := Tag(ids[j], s.replicas[j].counter + 1);
      && (forall i, item :: 0 <= i < |s.replicas| ==> tag !in Tags(s.replicas[i].elements, item))
      && (forall k, item :: 0 <= k < |s.snapshots| ==> tag !in Tags(s.snapshots[k], item))
  {
    SetRunKeeps(NewSets(ids), es);
    NextTagIsFresh(AfterSetRun(NewSets(ids), es), j);
  }

  /** Only a removal at the replica itself takes a tag away from it: whatever the
      others remove and however their states are merged, the add stays. */
  lemma {:induction false} OnlyOwnRemovalCancels(s: Sets, es: seq<SetEvent>, j: nat, item: string)
    requires SetRun(s, es) && j < |s.replicas| && Remove(j, item) !in es
    ensures j < |AfterSetRun(s, es).replicas|
    ensures Tags(s.replicas[j].elements, item) <= Tags(AfterSetRun(s, es).replicas[j].elements, item)
    decreases |es|
  {
    if es == [] {
    } else {
      assert es[0] in es && forall e :: e in es[1..] ==> e in es;
      OnlyOwnRemovalCancels(SetStep(s, es[0]), es[1..], j, item);
    }
  }

  lemma {:induction false} SetRunPrefix(s: Sets, es: seq<SetEvent>, n: nat)
    requires SetRun(s, es) && n <= |es|
    ensures SetRun(s, es[..n])
    ensures n < |es| ==>
      && SetEnabled(AfterSetRun(s, es[..n]), es[n]) && SetRun(s, es[..n + 1])
      && AfterSetRun(s, es[..n + 1]) == SetStep(AfterSetRun(s, es[..n]), es[n])
    decreases |es|
  {
    if n == 0 {
      if es != [] {
        assert es[..1][1..] == [] && es[..1][0] == es[0];
      }
    } else {
      SetRunPrefix(SetStep(s, es[0]), es[1..], n - 1);
      assert es[..n][1..] == es[1..][..n - 1];
      if n < |es| {
        assert es[..n + 1][1..] == es[1..][..n];
      }
    }
  }

  /** The state after the first n events. */
  function SetsAt(ids: seq<string>, es: seq<SetEvent>, n: nat): Sets
    requires n <= |es| && SetRun(NewSets(ids), es[..n])
  {
    AfterSetRun(NewSets(ids), es[..n])
  }

  /** The tags for the item that the event brings to replica i. */
  function Brought(s: Sets, e: SetEvent, i: nat, item: string): set<string>
    requires i < |s.replicas| == |s.ids| && SetEnabled(s, e)
  {
    match e
    case Add(j, x) => if j == i && x == item then {Tag(s.ids[i], s.replicas[i].counter + 1)} else {}
    case MergeSet(j, k) => if j == i then Tags(s.snapshots[k], item) else {}
    case _ => {}
  }

  lemma {:induction false} StepTags(s: Sets, e: SetEvent, i: nat, item: string)
    requires SetEnabled(s, e) && i < |s.replicas| == |s.ids|
    ensures i < |SetStep(s, e).replicas|
    ensures Tags(SetStep(s, e).replicas[i].elements, item)
         == (if e == Remove(i, item) then {} else Tags(s.replicas[i].elements, item)) + Brought(s, e, i, item)
  {
  }

  /** Some event before the m-th brought the tag to replica i, which has not removed the
      item since. */
  ghost predicate ReachedSince(ids: seq<string>, es: seq<SetEvent>, m: int, i: nat, item: string, tag: string)
    requires SetRun(NewSets(ids), es) && 0 <= m <= |es|
  {
    exists n :: 0 <= n < m && BroughtAt(ids, es, n, i, item, tag) && Remove(i, item) !in es[n..m]
  }

  ghost predicate BroughtAt(ids: seq<string>, es: seq<SetEvent>, n: int, i: nat, item: string, tag: string)
    requires 0 <= n < |es|
  {
    && SetRun(NewSets(ids), es[..n])
    && var s := SetsAt(ids, es, n);
    && i < |s.replicas| == |s.ids| && SetEnabled(s, es[n])
    && tag in Brought(s, es[n], i, item)
  }

  lemma {:induction false} ReachedNext(
      ids: seq<string>, es: seq<SetEvent>, m: nat, i: nat, item: string, tag: string)
    requires SetRun(NewSets(ids), es) && m < |es|
    ensures ReachedSince(ids, es, m + 1, i, item, tag) <==>
      (BroughtAt(ids, es, m, i, item, tag) && es[m] != Remove(i, item))
      || (es[m] != Remove(i, item) && ReachedSince(ids, es, m, i, item, tag))
  {
    forall n | 0 <= n <= m
      ensures Remove(i, item) !in es[n..m + 1] <==> Remove(i, item) !in es[n..m] && es[m] != Remove(i, item)
    {
      assert es[n..m + 1] == es[n..m] + [es[m]];
    }
  }

  lemma {:induction false} PresentAt(
      ids: seq<string>, es: seq<SetEvent>, m: nat, i: nat, item: string, tag: string)
    requires SetRun(NewSets(ids), es) && m <= |es| && i < |ids|
    ensures SetRun(NewSets(ids), es[..m]) && |SetsAt(ids, es, m).replicas| == |ids|
    ensures SetsAt(ids, es, m).ids == ids
    ensures tag in Tags(SetsAt(ids, es, m).replicas[i].elements, item) <==> ReachedSince(ids, es, m, i, item, tag)
  {
    SetRunPrefix(NewSets(ids), es, m);
    if m == 0 {
      assert es[..0] == [];
    } else {
      SetRunPrefix(NewSets(ids), es, m - 1);
      PresentAt(ids, es, m - 1, i, item, tag);
      StepTags(SetsAt(ids, es, m - 1), es[m - 1], i, item);
      ReachedNext(ids, es, m - 1, i, item, tag);
    }
  }

  /** Presence, exactly: after any run an item is at a replica if and only if some tag
      for it reached the replica, by an add there or a merge, after the replica's last
      own removal of the item. */
  lemma {:induction false} PresentIffReached(ids: seq<string>, es: seq<SetEvent>, i: nat, item: string)
    requires SetRun(NewSets(ids), es) && i < |ids|
    ensures i < |AfterSetRun(NewSets(ids), es).replicas|
    ensures Contains(AfterSetRun(NewSets(ids), es).replicas[i].elements, item) <==>
      exists tag :: ReachedSince(ids, es, |es|, i, item, tag)
  {
    assert es[..|es|] == es;
    PresentAt(ids, es, |es|, i, item, "");
    var tags := Tags(AfterSetRun(NewSets(ids), es).replicas[i].elements, item);
    forall tag
      ensures tag in tags <==> ReachedSince(ids, es, |es|, i, item, tag)
    {
      PresentAt(ids, es, |es|, i, item, tag);
    }
  }
}
