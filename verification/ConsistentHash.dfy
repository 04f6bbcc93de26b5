/** Consistent hashing with virtual nodes. The ring is an ordered map from hash
    to owner, kept as its entries in ascending order of hash. The hash function
    is a parameter: any total function, collisions included. */
module ConsistentHash {
  import opened Options
  import opened Words

  datatype Vnode = Vnode(hash: u64, owner: string)

  type Hash = string -> u64

  // ---------------------------------------------------------------------------
  // The ordered map
  // ---------------------------------------------------------------------------

  ghost predicate Sorted(es: seq<Vnode>) {
    forall i, j :: 0 <= i < j < |es| ==> es[i].hash < es[j].hash
  }

  /** `insert`: a hash already present gets the new owner. */
  function Insert(es: seq<Vnode>, h: u64, owner: string): seq<Vnode> {
    if es == [] || h < es[0].hash then [Vnode(h, owner)] + es
    else if h == es[0].hash then [Vnode(h, owner)] + es[1..]
    else [es[0]] + Insert(es[1..], h, owner)
  }

  /** `retain` of the entries that n does not own. */
  function Without(es: seq<Vnode>, n: string): seq<Vnode> {
    if es == [] then [] else
    var rest := Without(es[..|es| - 1], n);
    if es[|es| - 1].owner == n then rest else rest + [es[|es| - 1]]
  }

  /** `range(h..)`. */
  function From(es: seq<Vnode>, h: u64): seq<Vnode> {
    if es == [] then [] else
    var rest := From(es[..|es| - 1], h);
    if es[|es| - 1].hash < h then rest else rest + [es[|es| - 1]]
  }

  function Owners(es: seq<Vnode>): (r: seq<string>)
    ensures |r| == |es| && forall i :: 0 <= i < |es| ==> r[i] == es[i].owner
  {
    if es == [] then [] else Owners(es[..|es| - 1]) + [es[|es| - 1].owner]
  }

  lemma {:induction false} SplitHead(es: seq<Vnode>)
    requires es != [] && Sorted(es)
    ensures Sorted(es[1..])
    ensures forall e :: e in es <==> e == es[0] || e in es[1..]
    ensures forall e :: e in es[1..] ==> es[0].hash < e.hash
  {
    assert es == [es[0]] + es[1..];
  }

  lemma {:induction false} PrependSorted(e: Vnode, es: seq<Vnode>)
    requires Sorted(es) && forall x :: x in es ==> e.hash < x.hash
    ensures Sorted([e] + es)
  {
    forall j | 0 <= j < |es| ensures e.hash < es[j].hash {
      assert es[j] in es;
    }
  }

  /** Insertion is map update: it keeps the order, and changes one key. */
  lemma {:induction false} InsertIsUpdate(es: seq<Vnode>, h: u64, owner: string)
    requires Sorted(es)
    ensures Sorted(Insert(es, h, owner))
    ensures forall e :: e in Insert(es, h, owner) <==> e == Vnode(h, owner) || (e in es && e.hash != h)
  {
    if es == [] {
    } else {
      SplitHead(es);
      if h < es[0].hash {
        PrependSorted(Vnode(h, owner), es);
      } else if h == es[0].hash {
        PrependSorted(Vnode(h, owner), es[1..]);
      } else {
        InsertIsUpdate(es[1..], h, owner);
        PrependSorted(es[0], Insert(es[1..], h, owner));
      }
    }
  }

  lemma {:induction false} WithoutMembers(es: seq<Vnode>, n: string)
    requires Sorted(es)
    ensures Sorted(Without(es, n))
    ensures forall e :: e in Without(es, n) <==> e in es && e.owner != n
  {
    if es == [] {
    } else {
      var init, last := es[..|es| - 1], es[|es| - 1];
      WithoutMembers(init, n);
      assert es == init + [last];
      forall e | e in Without(init, n) ensures e.hash < last.hash {
        assert e in init;
      }
    }
  }

  lemma {:induction false} FromMembers(es: seq<Vnode>, h: u64)
    requires Sorted(es)
    ensures Sorted(From(es, h))
    ensures forall e :: e in From(es, h) <==> e in es && e.hash >= h
  {
    if es == [] {
    } else {
      var init, last := es[..|es| - 1], es[|es| - 1];
      FromMembers(init, h);
      assert es == init + [last];
      forall e | e in From(init, h) ensures e.hash < last.hash {
        assert e in init;
      }
    }
  }

  /** An ordered map is determined by its entries. */
  lemma {:induction false} SortedUnique(a: seq<Vnode>, b: seq<Vnode>)
    requires Sorted(a) && Sorted(b) && forall e :: e in a <==> e in b
    ensures a == b
    decreases |a|
  {
    assert |b| > 0 ==> b[0] in b;
    if a == [] {
    } else {
      assert a[0] in a && a[0] in b;
      assert b[0] in b && b[0] in a;
      assert a[0] == b[0];
      assert a == [a[0]] + a[1..] && b == [b[0]] + b[1..];
      forall e ensures e in a[1..] <==> e in b[1..] {
        assert e in a[1..] <==> e in a && e != a[0];
        assert e in b[1..] <==> e in b && e != b[0];
      }
      SortedUnique(a[1..], b[1..]);
    }
  }

  // ---------------------------------------------------------------------------
  // Adding, removing and routing
  // ---------------------------------------------------------------------------

  datatype Ring = Ring(vnodes: seq<Vnode>, nodes: seq<string>, virtualNodes: nat)

  function VnodeKey(n: string, i: nat): string { n + "#vnode-" + Decimal(i) }

  /** The first k virtual nodes of n placed on the ring. */
  function Placed(es: seq<Vnode>, hash: Hash, n: string, k: nat): seq<Vnode> {
    if k == 0 then es else Insert(Placed(es, hash, n, k - 1), hash(VnodeKey(n, k - 1)), n)
  }

  function Kept(nodes: seq<string>, n: string): seq<string> {
    if nodes == [] then [] else
    var rest := Kept(nodes[..|nodes| - 1], n);
    if nodes[|nodes| - 1] == n then rest else rest + [nodes[|nodes| - 1]]
  }

  function Add(r: Ring, hash: Hash, n: string): Ring {
    if n in r.nodes then r
    else r.(nodes := r.nodes + [n], vnodes := Placed(r.vnodes, hash, n, r.virtualNodes))
  }

  function Remove(r: Ring, n: string): Ring {
    r.(nodes := Kept(r.nodes, n), vnodes := Without(r.vnodes, n))
  }

  /** The owners met clockwise from h, with wrap-around. */
  function Clockwise(es: seq<Vnode>, h: u64): seq<string> {
    Owners(From(es, h)) + Owners(es)
  }

  /** First occurrences, in order. */
  function Distinct(s: seq<string>): seq<string> {
    if s == [] then [] else
    var d := Distinct(s[..|s| - 1]);
    if s[|s| - 1] in d then d else d + [s[|s| - 1]]
  }

  function First(s: seq<string>, count: nat): seq<string> {
    if |s| <= count then s else s[..count]
  }

  /** All owners of the ring in the order a key with hash h prefers them. */
  function Preference(es: seq<Vnode>, h: u64): seq<string> {
    Distinct(Clockwise(es, h))
  }

  function NodeAt(es: seq<Vnode>, h: u64): Option<string> {
    if es == [] then None
    else if From(es, h) != [] then Some(From(es, h)[0].owner)
    else Some(es[0].owner)
  }

  ghost predicate NoDuplicates(s: seq<string>) {
    forall i, j :: 0 <= i < j < |s| ==> s[i] != s[j]
  }

  ghost predicate ValidRing(r: Ring) {
    && Sorted(r.vnodes)
    && NoDuplicates(r.nodes)
    && forall e :: e in r.vnodes ==> e.owner in r.nodes
  }

  /** The ring as the program updates it in place. */
  class ConsistentHashRing {
    var ring: seq<Vnode>
    var nodes: seq<string>
    const virtualNodes: nat
    const hash: Hash

    ghost function Value(): Ring
      reads this
    {
      Ring(ring, nodes, virtualNodes)
    }

    constructor (virtualNodes: nat, hash: Hash)
      ensures Value() == Ring([], [], virtualNodes) && this.hash == hash
      ensures ValidRing(Value())
    {
      this.ring, this.nodes, this.virtualNodes, this.hash := [], [], virtualNodes, hash;
    }

    method AddNode(n: string)
      requires ValidRing(Value())
      modifies this
      ensures Value() == Add(old(Value()), hash, n)
      ensures ValidRing(Value())
    {
      AddKeepsValid(Value(), hash, n);
      if n in nodes {
        return;
      }
      nodes := nodes + [n];
      for i := 0 to virtualNodes
        invariant nodes == old(nodes) + [n]
        invariant ring == Placed(old(ring), hash, n, i)
      {
        var h := hash(VnodeKey(n, i));
        ring := Insert(ring, h, n);
      }
    }

    method RemoveNode(n: string)
      requires ValidRing(Value())
      modifies this
      ensures Value() == Remove(old(Value()), n)
      ensures ValidRing(Value())
    {
      RemoveKeepsValid(Value(), n);
      nodes := Kept(nodes, n);
      ring := Without(ring, n);
    }

    method GetNode(key: string) returns (r: Option<string>)
      ensures r == NodeAt(ring, hash(key))
    {
      if ring == [] {
        return None;
      }
      var range := From(ring, hash(key));
      return Some(if range != [] then range[0].owner else ring[0].owner);
    }

    method GetNodes(key: string, count: nat) returns (result: seq<string>)
      requires ValidRing(Value())
      ensures result == First(Preference(ring, hash(key)), count)
    {
      if ring == [] || count == 0 {
        return [];
      }
      var h := hash(key);
      WalkStaysOnNodes(Value(), h);
      result := WalkClockwise(Clockwise(ring, h), count, nodes);
    }
  }

  /** The loop of `get_nodes`. Both early exits are sound: the result is the
      first `count` distinct owners of the whole walk. */
  method WalkClockwise(walk: seq<string>, count: nat, nodes: seq<string>) returns (result: seq<string>)
    requires count > 0 && NoDuplicates(nodes) && forall x :: x in walk ==> x in nodes
    ensures result == First(Distinct(walk), count)
  {
    var seen: set<string> := {};
    result := [];
    for i := 0 to |walk|
      invariant result == Distinct(walk[..i])
      invariant |result| < count
      invariant forall x :: x in seen <==> x in result
    {
      DistinctStep(walk, i);
      DistinctOfPrefix(walk, i + 1);
      if walk[i] !in seen {
        seen := seen + {walk[i]};
        result := result + [walk[i]];
        if |result| >= count {
          return;
        }
      }
      if |seen| == |nodes| {
        AllSeen(walk, i + 1, nodes, seen);
        return;
      }
    }
    assert walk[..|walk|] == walk;
  }

  // ---------------------------------------------------------------------------
  // What routing returns
  // ---------------------------------------------------------------------------

  lemma {:induction false} DistinctMembers(s: seq<string>)
    ensures NoDuplicates(Distinct(s))
    ensures forall x :: x in Distinct(s) <==> x in s
  {
    if s == [] {
    } else {
      DistinctMembers(s[..|s| - 1]);
      assert s == s[..|s| - 1] + [s[|s| - 1]];
    }
  }

  lemma {:induction false} DistinctOfPrefix(s: seq<string>, k: nat)
    requires k <= |s|
    ensures Distinct(s[..k]) <= Distinct(s)
  {
    if k == |s| {
      assert s[..k] == s;
    } else {
      assert s[..|s| - 1][..k] == s[..k];
      DistinctOfPrefix(s[..|s| - 1], k);
    }
  }

  lemma {:induction false} DistinctStep(s: seq<string>, i: nat)
    requires i < |s|
    ensures Distinct(s[..i + 1]) ==
      if s[i] in Distinct(s[..i]) then Distinct(s[..i]) else Distinct(s[..i]) + [s[i]]
  {
    assert s[..i + 1][..i] == s[..i];
  }

  lemma {:induction false} NothingNew(s: seq<string>, k: nat)
    requires k <= |s| && forall i :: k <= i < |s| ==> s[i] in Distinct(s[..k])
    ensures Distinct(s) == Distinct(s[..k])
  {
    if k == |s| {
      assert s[..k] == s;
    } else {
      assert s[..|s| - 1][..k] == s[..k];
      NothingNew(s[..|s| - 1], k);
    }
  }

  lemma {:induction false} SizeOfDistinct(s: seq<string>)
    requires NoDuplicates(s)
    ensures |set x | x in s| == |s|
  {
    if s == [] {
    } else {
      var init := s[..|s| - 1];
      SizeOfDistinct(init);
      assert (set x | x in s) == (set x | x in init) + {s[|s| - 1]};
    }
  }

  lemma {:induction false} EqualSizeSubset(a: set<string>, b: set<string>)
    requires a <= b && |a| == |b|
    ensures a == b
  {
    assert |b - a| == |b| - |a|;
    assert b == a + (b - a);
  }

  lemma {:induction false} WalkMembers(es: seq<Vnode>, h: u64)
    requires Sorted(es)
    ensures forall x :: x in Clockwise(es, h) <==> x in Owners(es)
  {
    FromMembers(es, h);
    var f := From(es, h);
    forall x | x in Owners(f) ensures x in Owners(es) {
      var i :| 0 <= i < |f| && f[i].owner == x;
      assert f[i] in f;
      var j :| 0 <= j < |es| && es[j] == f[i];
      assert Owners(es)[j] == x;
    }
  }

  lemma {:induction false} OwnerSet(es: seq<Vnode>)
    ensures (set x | x in Owners(es)) == set e | e in es :: e.owner
  {
    forall e | e in es ensures e.owner in Owners(es) {
      var i :| 0 <= i < |es| && es[i] == e;
      assert Owners(es)[i] == e.owner;
    }
    forall x | x in Owners(es) ensures exists e :: e in es && e.owner == x {
      var i :| 0 <= i < |es| && Owners(es)[i] == x;
      assert es[i] in es;
    }
  }

  lemma {:induction false} WalkStaysOnNodes(r: Ring, h: u64)
    requires ValidRing(r)
    ensures forall x :: x in Clockwise(r.vnodes, h) ==> x in r.nodes
    ensures NoDuplicates(r.nodes)
  {
    WalkMembers(r.vnodes, h);
  }

  /** Once as many owners have been seen as there are nodes, the walk brings nothing new. */
  lemma {:induction false} AllSeen(walk: seq<string>, k: nat, nodes: seq<string>, seen: set<string>)
    requires k <= |walk| && NoDuplicates(nodes) && forall x :: x in walk ==> x in nodes
    requires (forall x :: x in seen <==> x in Distinct(walk[..k])) && |seen| == |nodes|
    ensures Distinct(walk) == Distinct(walk[..k])
  {
    DistinctMembers(walk[..k]);
    SizeOfDistinct(nodes);
    assert forall x :: x in seen ==> x in walk[..k] && x in walk;
    EqualSizeSubset(seen, set x | x in nodes);
    assert forall i :: k <= i < |walk| ==> walk[i] in walk && walk[i] in seen;
    NothingNew(walk, k);
  }

  lemma {:induction false} HeadOfDistinct(s: seq<string>)
    requires s != []
    ensures Distinct(s) != [] && Distinct(s)[0] == s[0]
  {
    DistinctStep(s, 0);
    assert s[..0] == [];
    DistinctOfPrefix(s, 1);
  }

  /** The distinct owners on the ring. */
  function OwnersOf(es: seq<Vnode>): set<string> { set e | e in es :: e.owner }

  lemma {:induction false} PreferenceMembers(es: seq<Vnode>, h: u64)
    requires Sorted(es)
    ensures var full := Preference(es, h);
      NoDuplicates(full) && |full| == |OwnersOf(es)| && forall x :: x in full <==> x in OwnersOf(es)
  {
    var full := Preference(es, h);
    DistinctMembers(Clockwise(es, h));
    WalkMembers(es, h);
    OwnerSet(es);
    SizeOfDistinct(full);
    assert (set x | x in full) == OwnersOf(es);
  }

  lemma {:induction false} PreferenceHead(es: seq<Vnode>, h: u64)
    ensures NodeAt(es, h) == if Preference(es, h) == [] then None else Some(Preference(es, h)[0])
  {
    if es != [] {
      HeadOfDistinct(Clockwise(es, h));
    }
  }

  /** The replica list of a key has min(count, D) distinct members, D being the
      number of distinct owners on the ring; all are owners; it is headed by the
      key's own node and is a prefix of every longer replica list. */
  lemma {:induction false} ReplicaList(es: seq<Vnode>, h: u64, count: nat, more: nat)
    requires Sorted(es) && count <= more
    ensures var r := First(Preference(es, h), count);
      && NoDuplicates(r)
      && |r| == (if count < |OwnersOf(es)| then count else |OwnersOf(es)|)
      && (forall x :: x in r ==> x in OwnersOf(es))
      && r <= First(Preference(es, h), more)
      && (count > 0 ==> NodeAt(es, h) == if r == [] then None else Some(r[0]))
  {
    PreferenceMembers(es, h);
    PreferenceHead(es, h);
    assert forall x :: x in First(Preference(es, h), count) ==> x in Preference(es, h);
  }

  // ---------------------------------------------------------------------------
  // Reachable rings
  // ---------------------------------------------------------------------------

  /** One of n's first k virtual nodes falls on h. */
  ghost predicate Claims(hash: Hash, n: string, k: nat, h: u64) {
    exists i :: 0 <= i < k && hash(VnodeKey(n, i)) == h
  }

  lemma {:induction false} ClaimsStep(hash: Hash, n: string, k: nat, h: u64)
    requires k > 0
    ensures Claims(hash, n, k, h) <==> h == hash(VnodeKey(n, k - 1)) || Claims(hash, n, k - 1, h)
  {
  }

  /** The entries on the ring after n's first k virtual nodes went in. */
  lemma {:induction false} PlacedMembers(es: seq<Vnode>, hash: Hash, n: string, k: nat)
    requires Sorted(es)
    ensures Sorted(Placed(es, hash, n, k))
    ensures forall e :: e in Placed(es, hash, n, k) <==> if Claims(hash, n, k, e.hash) then e.owner == n else e in es
  {
    if k == 0 {
    } else {
      var before, h := Placed(es, hash, n, k - 1), hash(VnodeKey(n, k - 1));
      PlacedMembers(es, hash, n, k - 1);
      InsertIsUpdate(before, h, n);
      forall e
        ensures e in Insert(before, h, n) <==> if Claims(hash, n, k, e.hash) then e.owner == n else e in es
      {
        ClaimsStep(hash, n, k, e.hash);
      }
    }
  }

  lemma {:induction false} AddKeepsValid(r: Ring, hash: Hash, n: string)
    requires ValidRing(r)
    ensures ValidRing(Add(r, hash, n))
  {
    PlacedMembers(r.vnodes, hash, n, r.virtualNodes);
  }

  lemma {:induction false} KeptMembers(nodes: seq<string>, n: string)
    ensures forall x :: x in Kept(nodes, n) <==> x in nodes && x != n
    ensures NoDuplicates(nodes) ==> NoDuplicates(Kept(nodes, n))
    ensures n !in nodes ==> Kept(nodes, n) == nodes
  {
    if nodes == [] {
    } else {
      var init, last := nodes[..|nodes| - 1], nodes[|nodes| - 1];
      KeptMembers(init, n);
      assert nodes == init + [last];
      if NoDuplicates(nodes) {
        assert last !in init;
      }
    }
  }

  lemma {:induction false} RemoveKeepsValid(r: Ring, n: string)
    requires ValidRing(r)
    ensures ValidRing(Remove(r, n))
  {
    KeptMembers(r.nodes, n);
    WithoutMembers(r.vnodes, n);
  }

  // ---------------------------------------------------------------------------
  // Minimal disruption
  // ---------------------------------------------------------------------------

  lemma {:induction false} WithoutFrom(es: seq<Vnode>, n: string, h: u64)
    ensures From(Without(es, n), h) == Without(From(es, h), n)
  {
    if es == [] {
    } else {
      var init, last := es[..|es| - 1], es[|es| - 1];
      WithoutFrom(init, n, h);
      assert (Without(init, n) + [last])[..|Without(init, n)|] == Without(init, n);
      assert (From(init, h) + [last])[..|From(init, h)|] == From(init, h);
    }
  }

  lemma {:induction false} OwnersWithout(es: seq<Vnode>, n: string)
    ensures Owners(Without(es, n)) == Kept(Owners(es), n)
  {
    if es == [] {
    } else {
      var init, last := es[..|es| - 1], es[|es| - 1];
      OwnersWithout(init, n);
      assert Owners(es)[..|es| - 1] == Owners(init);
      assert (Without(init, n) + [last])[..|Without(init, n)|] == Without(init, n);
    }
  }

  lemma {:induction false} KeptConcat(a: seq<string>, b: seq<string>, n: string)
    ensures Kept(a + b, n) == Kept(a, n) + Kept(b, n)
  {
    if b == [] {
      assert a + b == a;
    } else {
      assert (a + b)[..|a + b| - 1] == a + b[..|b| - 1];
      KeptConcat(a, b[..|b| - 1], n);
    }
  }

  lemma {:induction false} DistinctKept(s: seq<string>, n: string)
    ensures Distinct(Kept(s, n)) == Kept(Distinct(s), n)
  {
    if s == [] {
    } else {
      var init, last := s[..|s| - 1], s[|s| - 1];
      DistinctKept(init, n);
      KeptMembers(Distinct(init), n);
      assert (Kept(init, n) + [last])[..|Kept(init, n)|] == Kept(init, n);
      assert (Distinct(init) + [last])[..|Distinct(init)|] == Distinct(init);
    }
  }

  lemma {:induction false} WithoutPreference(es: seq<Vnode>, n: string, h: u64)
    ensures Preference(Without(es, n), h) == Kept(Preference(es, h), n)
  {
    WithoutFrom(es, n, h);
    OwnersWithout(es, n);
    OwnersWithout(From(es, h), n);
    KeptConcat(Owners(From(es, h)), Owners(es), n);
    DistinctKept(Clockwise(es, h), n);
  }

  /** Removing n deletes it from every key's preference list and moves nothing
      else, for every key and replica count, hash collisions included. */
  lemma {:induction false} RemoveIsMinimal(r: Ring, hash: Hash, n: string, key: string, count: nat)
    ensures First(Preference(Remove(r, n).vnodes, hash(key)), count)
         == First(Kept(Preference(r.vnodes, hash(key)), n), count)
  {
    WithoutPreference(r.vnodes, n, hash(key));
  }

  lemma {:induction false} InsertMovesToNew(es: seq<Vnode>, x: u64, n: string, h: u64)
    requires Sorted(es)
    ensures NodeAt(Insert(es, x, n), h) == Some(n) || NodeAt(Insert(es, x, n), h) == NodeAt(es, h)
  {
    var es' := Insert(es, x, n);
    InsertIsUpdate(es, x, n);
    FromMembers(es, h);
    FromMembers(es', h);
    var f, f' := From(es, h), From(es', h);
    if f != [] {
      assert f[0] in f;
      assert f[0] in f' || Vnode(x, n) in f';
    }
    if f' != [] && f'[0].owner != n {
      assert f'[0] in f';
      assert f'[0] in f;
    }
  }

  /** Adding n leaves each key with the node it had or moves it to n. */
  lemma {:induction false} AddMovesToNewOnly(es: seq<Vnode>, hash: Hash, n: string, k: nat, key: string)
    requires Sorted(es)
    ensures var after := NodeAt(Placed(es, hash, n, k), hash(key));
      after == Some(n) || after == NodeAt(es, hash(key))
  {
    if k == 0 {
    } else {
      AddMovesToNewOnly(es, hash, n, k - 1, key);
      PlacedMembers(es, hash, n, k - 1);
      InsertMovesToNew(Placed(es, hash, n, k - 1), hash(VnodeKey(n, k - 1)), n, hash(key));
    }
  }

  /** None of n's virtual nodes falls on a hash that the ring already uses. */
  ghost predicate Fresh(r: Ring, hash: Hash, n: string) {
    forall i, e :: 0 <= i < r.virtualNodes && e in r.vnodes ==> hash(VnodeKey(n, i)) != e.hash
  }

  lemma {:induction false} AddThenRemoveRing(r: Ring, hash: Hash, n: string)
    requires ValidRing(r) && n !in r.nodes
    ensures Without(Placed(r.vnodes, hash, n, r.virtualNodes), n) == r.vnodes <==> Fresh(r, hash, n)
  {
    var es, es' := r.vnodes, Placed(r.vnodes, hash, n, r.virtualNodes);
    PlacedMembers(es, hash, n, r.virtualNodes);
    WithoutMembers(es', n);
    if Fresh(r, hash, n) {
      SortedUnique(Without(es', n), es);
    } else {
      var i, e :| 0 <= i < r.virtualNodes && e in es && hash(VnodeKey(n, i)) == e.hash;
      assert Claims(hash, n, r.virtualNodes, e.hash);
      assert e !in Without(es', n);
    }
  }

  /** Adding a node and removing it again restores the ring exactly when the
      node was not on it and its virtual nodes displaced nobody. */
  lemma {:induction false} AddThenRemove(r: Ring, hash: Hash, n: string)
    requires ValidRing(r)
    ensures Remove(Add(r, hash, n), n) == r <==> n !in r.nodes && Fresh(r, hash, n)
  {
    KeptMembers(r.nodes, n);
    if n !in r.nodes {
      KeptMembers(r.nodes + [n], n);
      assert Kept(r.nodes + [n], n) == r.nodes by {
        assert (r.nodes + [n])[..|r.nodes|] == r.nodes;
      }
      AddThenRemoveRing(r, hash, n);
    }
  }

  /** The entries whose hashes n's first k virtual nodes leave alone. */
  ghost function Unclaimed(es: seq<Vnode>, hash: Hash, n: string, k: nat): seq<Vnode> {
    if es == [] then [] else
    var rest := Unclaimed(es[..|es| - 1], hash, n, k);
    if Claims(hash, n, k, es[|es| - 1].hash) then rest else rest + [es[|es| - 1]]
  }

  lemma {:induction false} UnclaimedMembers(es: seq<Vnode>, hash: Hash, n: string, k: nat)
    requires Sorted(es)
    ensures Sorted(Unclaimed(es, hash, n, k))
    ensures forall e :: e in Unclaimed(es, hash, n, k) <==> e in es && !Claims(hash, n, k, e.hash)
  {
    if es == [] {
    } else {
      var init, last := es[..|es| - 1], es[|es| - 1];
      UnclaimedMembers(init, hash, n, k);
      assert es == init + [last];
      forall e | e in Unclaimed(init, hash, n, k)
        ensures e.hash < last.hash
      {
        assert e in init;
      }
    }
  }

  lemma {:induction false} PlacedWithout(es: seq<Vnode>, hash: Hash, n: string, k: nat)
    requires Sorted(es) && forall e :: e in es ==> e.owner != n
    ensures Without(Placed(es, hash, n, k), n) == Unclaimed(es, hash, n, k)
  {
    var without, unclaimed := Without(Placed(es, hash, n, k), n), Unclaimed(es, hash, n, k);
    PlacedMembers(es, hash, n, k);
    WithoutMembers(Placed(es, hash, n, k), n);
    UnclaimedMembers(es, hash, n, k);
    forall e
      ensures e in without <==> e in unclaimed
    {
    }
    SortedUnique(without, unclaimed);
  }

  /** A new node is inserted into every preference list and otherwise leaves it the
      list of the entries it does not displace; these are all the old ones if and only
      if it displaces nobody. */
  lemma {:induction false} AddIsMinimal(r: Ring, hash: Hash, n: string, key: string)
    requires ValidRing(r) && n !in r.nodes
    ensures var rest := Unclaimed(r.vnodes, hash, n, r.virtualNodes);
      && Kept(Preference(Add(r, hash, n).vnodes, hash(key)), n) == Preference(rest, hash(key))
      && (rest == r.vnodes <==> Fresh(r, hash, n))
  {
    PlacedWithout(r.vnodes, hash, n, r.virtualNodes);
    AddThenRemoveRing(r, hash, n);
    WithoutPreference(Add(r, hash, n).vnodes, n, hash(key));
  }

  /** Two nodes may be added in either order with the same ring as the outcome
      exactly when no virtual node of one falls on one of the other. */
  lemma {:induction false} AddOrder(r: Ring, hash: Hash, a: string, b: string)
    requires ValidRing(r) && a != b && a !in r.nodes && b !in r.nodes
    ensures Add(Add(r, hash, a), hash, b).vnodes == Add(Add(r, hash, b), hash, a).vnodes <==>
      forall i, j :: 0 <= i < r.virtualNodes && 0 <= j < r.virtualNodes ==> hash(VnodeKey(a, i)) != hash(VnodeKey(b, j))
  {
    var v := r.virtualNodes;
    var ab, ba := Add(Add(r, hash, a), hash, b).vnodes, Add(Add(r, hash, b), hash, a).vnodes;
    PlacedMembers(r.vnodes, hash, a, v);
    PlacedMembers(r.vnodes, hash, b, v);
    PlacedMembers(Placed(r.vnodes, hash, a, v), hash, b, v);
    PlacedMembers(Placed(r.vnodes, hash, b, v), hash, a, v);
    if i, j :| 0 <= i < v && 0 <= j < v && hash(VnodeKey(a, i)) == hash(VnodeKey(b, j)) {
      var e := Vnode(hash(VnodeKey(a, i)), b);
      assert Claims(hash, a, v, e.hash) && Claims(hash, b, v, e.hash);
      assert e in ab && e !in ba;
    } else {
      forall e ensures e in ab <==> e in ba {
      }
      SortedUnique(ab, ba);
    }
  }

  // ---------------------------------------------------------------------------
  // Rings built by additions
  // ---------------------------------------------------------------------------

  /** Different virtual nodes have different keys, whatever the names contain. */
  lemma {:induction false} VnodeKeyInjective(m: string, i: nat, n: string, j: nat)
    requires VnodeKey(m, i) == VnodeKey(n, j)
    ensures m == n && i == j
  {
    var stem := "#vnode";
    assert VnodeKey(m, i) == (m + stem) + ['-'] + Decimal(i);
    assert VnodeKey(n, j) == (n + stem) + ['-'] + Decimal(j);
    NumberedInjective(m + stem, i, n + stem, j, '-');
    assert (m + stem)[..|m|] == m && (n + stem)[..|n|] == n;
  }

  /** The hash separates the keys of these nodes' virtual nodes. */
  ghost predicate Separates(hash: Hash, names: seq<string>, v: nat) {
    forall m, n, i: nat, j: nat | m in names && n in names && i < v && j < v ::
      hash(VnodeKey(m, i)) == hash(VnodeKey(n, j)) ==> VnodeKey(m, i) == VnodeKey(n, j)
  }

  function Built(v: nat, hash: Hash, names: seq<string>): Ring {
    if names == [] then Ring([], [], v) else Add(Built(v, hash, names[..|names| - 1]), hash, names[|names| - 1])
  }

  /** The entry is one of these nodes' first v virtual nodes. */
  ghost predicate IsVnode(hash: Hash, names: seq<string>, v: nat, e: Vnode) {
    exists n, i: nat :: n in names && i < v && e == Vnode(hash(VnodeKey(n, i)), n)
  }

  lemma {:induction false} InsertLength(es: seq<Vnode>, h: u64, owner: string)
    requires Sorted(es) && forall e :: e in es ==> e.hash != h
    ensures |Insert(es, h, owner)| == |es| + 1
  {
    if es == [] {
    } else {
      SplitHead(es);
      assert es[0] in es;
      if h > es[0].hash {
        InsertLength(es[1..], h, owner);
      }
    }
  }

  /** A new node whose virtual nodes are apart from each other and from the ring's adds
      one entry each. */
  lemma {:induction false} PlacedLength(es: seq<Vnode>, hash: Hash, n: string, k: nat)
    requires Sorted(es) && forall i: nat, e :: i < k && e in es ==> hash(VnodeKey(n, i)) != e.hash
    requires forall i: nat, j: nat :: i < j < k ==> hash(VnodeKey(n, i)) != hash(VnodeKey(n, j))
    ensures |Placed(es, hash, n, k)| == |es| + k
  {
    if k == 0 {
    } else {
      PlacedLength(es, hash, n, k - 1);
      PlacedMembers(es, hash, n, k - 1);
      var before, h := Placed(es, hash, n, k - 1), hash(VnodeKey(n, k - 1));
      forall e | e in before
        ensures e.hash != h
      {
        if Claims(hash, n, k - 1, e.hash) {
          var i :| 0 <= i < k - 1 && hash(VnodeKey(n, i)) == e.hash;
        }
      }
      InsertLength(before, h, n);
    }
  }

  lemma {:induction false} ApartFromOthers(hash: Hash, names: seq<string>, n: string, v: nat, es: seq<Vnode>)
    requires n !in names && Separates(hash, names + [n], v)
    requires forall e :: e in es ==> IsVnode(hash, names, v, e)
    ensures forall i: nat, e :: i < v && e in es ==> hash(VnodeKey(n, i)) != e.hash
    ensures forall i: nat, j: nat :: i < j < v ==> hash(VnodeKey(n, i)) != hash(VnodeKey(n, j))
  {
    forall i: nat, e | i < v && e in es
      ensures hash(VnodeKey(n, i)) != e.hash
    {
      var m, j: nat :| m in names && j < v && e == Vnode(hash(VnodeKey(m, j)), m);
      assert m in names + [n] && n in names + [n];
      if hash(VnodeKey(n, i)) == e.hash {
        VnodeKeyInjective(n, i, m, j);
      }
    }
    forall i: nat, j: nat | i < j < v
      ensures hash(VnodeKey(n, i)) != hash(VnodeKey(n, j))
    {
      assert n in names + [n];
      if hash(VnodeKey(n, i)) == hash(VnodeKey(n, j)) {
        VnodeKeyInjective(n, i, n, j);
      }
    }
  }

  lemma {:induction false} VnodeOfOneMore(hash: Hash, names: seq<string>, n: string, v: nat, e: Vnode)
    ensures IsVnode(hash, names + [n], v, e) <==>
      IsVnode(hash, names, v, e) || (e.owner == n && Claims(hash, n, v, e.hash))
  {
    assert n in names + [n];
    if IsVnode(hash, names, v, e) {
      var m, i: nat :| m in names && i < v && e == Vnode(hash(VnodeKey(m, i)), m);
      assert m in names + [n];
    }
    if e.owner == n && Claims(hash, n, v, e.hash) {
      var i :| 0 <= i < v && hash(VnodeKey(n, i)) == e.hash;
      assert e == Vnode(hash(VnodeKey(n, i)), n);
    }
  }

  lemma {:induction false} PlacedAreVnodes(es: seq<Vnode>, hash: Hash, names: seq<string>, n: string, v: nat)
    requires Sorted(es) && n !in names && Separates(hash, names + [n], v)
    requires forall e :: e in es <==> IsVnode(hash, names, v, e)
    ensures forall e :: e in Placed(es, hash, n, v) <==> IsVnode(hash, names + [n], v, e)
  {
    PlacedMembers(es, hash, n, v);
    ApartFromOthers(hash, names, n, v, es);
    forall e
      ensures e in Placed(es, hash, n, v) <==> IsVnode(hash, names + [n], v, e)
    {
      VnodeOfOneMore(hash, names, n, v, e);
      if Claims(hash, n, v, e.hash) {
        var i :| 0 <= i < v && hash(VnodeKey(n, i)) == e.hash;
        assert e !in es;
      }
    }
  }

  lemma {:induction false} SeparatesFewer(hash: Hash, names: seq<string>, n: string, v: nat)
    requires Separates(hash, names + [n], v)
    ensures Separates(hash, names, v)
  {
    assert forall m :: m in names ==> m in names + [n];
  }

  lemma {:induction false} OneMoreTimes(k: nat, v: nat)
    ensures (k + 1) * v == k * v + v
  {
  }

  lemma {:induction false} AddedHoldsAll(r: Ring, hash: Hash, names: seq<string>, n: string)
    requires ValidRing(r) && r.nodes == names && n !in names && Separates(hash, names + [n], r.virtualNodes)
    requires forall e :: e in r.vnodes <==> IsVnode(hash, names, r.virtualNodes, e)
    ensures var r' := Add(r, hash, n);
      && ValidRing(r') && r'.nodes == names + [n] && r'.virtualNodes == r.virtualNodes
      && (forall e :: e in r'.vnodes <==> IsVnode(hash, names + [n], r.virtualNodes, e))
      && |r'.vnodes| == |r.vnodes| + r.virtualNodes
      && Fresh(r, hash, n)
  {
    AddKeepsValid(r, hash, n);
    PlacedAreVnodes(r.vnodes, hash, names, n, r.virtualNodes);
    ApartFromOthers(hash, names, n, r.virtualNodes, r.vnodes);
    PlacedLength(r.vnodes, hash, n, r.virtualNodes);
  }

  /** With a hash that separates their keys, a ring built by adding distinct nodes holds
      exactly the virtual nodes of all of them, v each. */
  lemma {:induction false} BuiltHoldsAll(v: nat, hash: Hash, names: seq<string>)
    requires NoDuplicates(names) && Separates(hash, names, v)
    ensures var r := Built(v, hash, names);
      && ValidRing(r) && r.nodes == names && r.virtualNodes == v
      && (forall e :: e in r.vnodes <==> IsVnode(hash, names, v, e))
      && |r.vnodes| == |names| * v
  {
    if names == [] {
    } else {
      var init, n := names[..|names| - 1], names[|names| - 1];
      assert names == init + [n] && n !in init;
      SeparatesFewer(hash, init, n, v);
      BuiltHoldsAll(v, hash, init);
      AddedHoldsAll(Built(v, hash, init), hash, init, n);
      OneMoreTimes(|init|, v);
    }
  }

  /** With such a hash a node added to a ring built by additions displaces nobody and
      adds exactly v entries. */
  lemma {:induction false} AdditionDisplacesNobody(v: nat, hash: Hash, names: seq<string>, n: string)
    requires NoDuplicates(names) && n !in names && Separates(hash, names + [n], v)
    ensures var r := Built(v, hash, names);
      Fresh(r, hash, n) && |Add(r, hash, n).vnodes| == |r.vnodes| + v
  {
    SeparatesFewer(hash, names, n, v);
    BuiltHoldsAll(v, hash, names);
    AddedHoldsAll(Built(v, hash, names), hash, names, n);
  }

  // ---------------------------------------------------------------------------
  // Preference is clockwise distance
  // ---------------------------------------------------------------------------

  /** How far the entry lies clockwise from h, around the ring. */
  function Distance(h: u64, e: Vnode): nat {
    (e.hash - h) % WORD
  }

  /** The node of a key owns the entry nearest clockwise. */
  lemma {:induction false} NodeIsNearest(es: seq<Vnode>, h: u64) returns (e: Vnode)
    requires Sorted(es) && es != []
    ensures e in es && NodeAt(es, h) == Some(e.owner)
    ensures forall x :: x in es && x != e ==> Distance(h, e) < Distance(h, x)
  {
    FromMembers(es, h);
    var f := From(es, h);
    if f != [] {
      e := f[0];
      assert e in f;
    } else {
      e := es[0];
    }
    forall x | x in es && x != e
      ensures Distance(h, e) < Distance(h, x)
    {
      if x.hash >= h {
        assert x in f;
        var j :| 0 <= j < |f| && f[j] == x;
      } else {
        var j :| 0 <= j < |es| && es[j] == x;
        if e.hash < h {
          assert es[0].hash < es[j].hash;
        }
      }
    }
  }

  /** The entries before h. */
  function Before(es: seq<Vnode>, h: u64): seq<Vnode> {
    if es == [] then [] else
    var rest := Before(es[..|es| - 1], h);
    if es[|es| - 1].hash < h then rest + [es[|es| - 1]] else rest
  }

  lemma {:induction false} BeforeAndFrom(es: seq<Vnode>, h: u64)
    requires Sorted(es)
    ensures es == Before(es, h) + From(es, h)
    ensures forall e :: e in Before(es, h) ==> e.hash < h
    ensures forall e :: e in From(es, h) ==> e.hash >= h
  {
    if es == [] {
    } else {
      var init, last := es[..|es| - 1], es[|es| - 1];
      BeforeAndFrom(init, h);
      assert es == init + [last];
      forall e | e in From(init, h)
        ensures e.hash < last.hash
      {
        assert e in init;
      }
      assert From(init, h) != [] ==> From(init, h)[0] in From(init, h);
    }
  }

  lemma {:induction false} OwnersConcat(a: seq<Vnode>, b: seq<Vnode>)
    ensures Owners(a + b) == Owners(a) + Owners(b)
  {
  }

  /** One turn around the ring from h. */
  function Lap(es: seq<Vnode>, h: u64): seq<Vnode> {
    From(es, h) + Before(es, h)
  }

  lemma {:induction false} DistanceOf(h: u64, e: Vnode)
    ensures Distance(h, e) == if e.hash >= h then e.hash - h else e.hash - h + WORD
  {
  }

  lemma {:induction false} LapMembers(es: seq<Vnode>, h: u64)
    requires Sorted(es)
    ensures forall e :: e in Lap(es, h) <==> e in es
    ensures Owners(Lap(es, h)) <= Clockwise(es, h)
  {
    BeforeAndFrom(es, h);
    OwnersConcat(From(es, h), Before(es, h));
    OwnersConcat(Before(es, h), From(es, h));
  }

  lemma {:induction false} LapIsByDistance(es: seq<Vnode>, h: u64, i: nat, j: nat)
    requires Sorted(es) && i < j < |Lap(es, h)|
    ensures Distance(h, Lap(es, h)[i]) < Distance(h, Lap(es, h)[j])
  {
    BeforeAndFrom(es, h);
    var f, b, x, y := From(es, h), Before(es, h), Lap(es, h)[i], Lap(es, h)[j];
    DistanceOf(h, x);
    DistanceOf(h, y);
    if j < |f| {
      assert x in f && y in f && es[|b| + i] == x && es[|b| + j] == y;
    } else if i < |f| {
      assert x in f && y in b;
    } else {
      assert x in b && y in b && es[i - |f|] == x && es[j - |f|] == y;
    }
  }

  /** Where the a-th distinct element is first met, later distinct ones are still to come. */
  lemma {:induction false} DistinctOrder(s: seq<string>, a: nat, b: nat) returns (i: nat)
    requires a < b < |Distinct(s)|
    ensures i < |s| && s[i] == Distinct(s)[a] && forall p :: 0 <= p <= i ==> s[p] != Distinct(s)[b]
  {
    var init := s[..|s| - 1];
    DistinctMembers(init);
    if b < |Distinct(init)| {
      i := DistinctOrder(init, a, b);
    } else {
      assert Distinct(s)[b] == s[|s| - 1] && Distinct(s)[a] == Distinct(init)[a];
      assert Distinct(init)[a] in init;
      i :| 0 <= i < |init| && init[i] == Distinct(init)[a];
      forall p | 0 <= p <= i
        ensures s[p] != Distinct(s)[b]
      {
        assert s[p] == init[p] && init[p] in init;
      }
    }
  }

  /** Preference is clockwise distance: each owner in a preference list has an entry that
      lies nearer to the key than every entry of every later owner. */
  lemma {:induction false} PreferenceIsByDistance(es: seq<Vnode>, h: u64, a: nat, b: nat) returns (e: Vnode)
    requires Sorted(es) && a < b < |Preference(es, h)|
    ensures e in es && e.owner == Preference(es, h)[a]
    ensures forall x :: x in es && x.owner == Preference(es, h)[b] ==> Distance(h, e) < Distance(h, x)
  {
    var lap, walk, o := Lap(es, h), Clockwise(es, h), Preference(es, h)[b];
    LapMembers(es, h);
    var i := DistinctOrder(walk, a, b);
    forall x | x in es && x.owner == o
      ensures i < |lap| && Distance(h, lap[i]) < Distance(h, x)
    {
      assert x in lap;
      var p :| 0 <= p < |lap| && lap[p] == x;
      assert walk[p] == Owners(lap)[p] == o;
      LapIsByDistance(es, h, i, p);
    }
    PreferenceMembers(es, h);
    assert o in Preference(es, h);
    var x :| x in es && x.owner == o;
    e := lap[i];
    assert walk[i] == Owners(lap)[i] && e in lap;
  }
}
