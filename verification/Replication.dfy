/** Quorum writes over the replicas of a key. A remote call succeeds, fails or
    times out as a schedule says, and whenever a coordinator waits the calls of
    others may change any node's storage. */
module Replication {
  import opened Options
  import opened Words
  import opened Cardinality
  import opened Storage
  import opened ConsistentHash

  datatype Result =
    | Ok(version: u64)
    | QuorumNotMet(acks: nat, required: nat)
    | NoReplicaAvailable
    | Network

  datatype Response = Ack(version: u64) | Error

  /** What becomes of one remote call. */
  datatype Delivery = Acked | ReplyLost | NotDelivered

  /** One storage call made on behalf of somebody else. */
  datatype Interference =
    | OtherPut(node: string, key: string, data: seq<byte>, ttl: Option<nat>, at: nat)
    | OtherReplicate(node: string, key: string, data: seq<byte>, version: u64, ttl: Option<nat>, at: nat)
    | OtherDrop(node: string, key: string)

  /** Everything a coordinator does not control: its pool of connected peers,
      the fate of its calls, what others do before each call, and the clock. */
  datatype Schedule = Schedule(
    pool: set<string>,
    forward: Delivery,
    reply: string -> Delivery,
    others: string -> seq<Interference>,
    clock: string -> nat)

  /** Node `node` has held an entry for `key` with this version. */
  datatype Held = Held(node: string, key: string, version: u64)

  /** Node `node` was told to store this entry, by a local put or a `Replicate`. */
  datatype Receipt = Receipt(node: string, key: string, data: seq<byte>, ttl: Option<nat>, version: u64)

  ghost predicate HeldAtLeast(held: set<Held>, node: string, key: string, version: u64) {
    exists h :: h in held && h.node == node && h.key == key && h.version >= version
  }

  ghost function Holders(held: set<Held>, replicas: seq<string>, key: string, version: u64): set<string> {
    set n | n in replicas && HeldAtLeast(held, n, key, version)
  }

  lemma {:induction false} HeldGrows(held: set<Held>, held': set<Held>, node: string, key: string, version: u64)
    requires held <= held' && HeldAtLeast(held, node, key, version)
    ensures HeldAtLeast(held', node, key, version)
  {
  }

  lemma {:induction false} HoldersGrow(
      held: set<Held>, held': set<Held>, replicas: seq<string>, key: string, version: u64)
    requires held <= held'
    ensures |Holders(held, replicas, key, version)| <= |Holders(held', replicas, key, version)|
  {
    assert Holders(held, replicas, key, version) <= Holders(held', replicas, key, version);
    SubsetSize(Holders(held, replicas, key, version), Holders(held', replicas, key, version));
  }

  // ---------------------------------------------------------------------------
  // What one write does to a store when nobody interferes
  // ---------------------------------------------------------------------------

  predicate Stores(e: Engine, key: string, data: seq<byte>, ttl: Option<nat>, version: u64) {
    && key in e.store && e.store[key].data == data
    && e.store[key].ttl == ttl && e.store[key].version == version
  }

  /** The store took the write if it had to, and is otherwise as before. */
  predicate Takes(e: Engine, e': Engine, key: string, data: seq<byte>, ttl: Option<nat>, version: u64) {
    && e'.store - {key} == e.store - {key}
    && if Accepts(e, key, version) then Stores(e', key, data, ttl, version) else e'.store == e.store
  }

  /** The write reached the store, or it did not. */
  predicate MayTake(e: Engine, e': Engine, key: string, data: seq<byte>, ttl: Option<nat>, version: u64) {
    e'.store == e.store || Takes(e, e', key, data, ttl, version)
  }

  lemma {:induction false} ReplicateTakes(
      e: Engine, key: string, data: seq<byte>, version: u64, ttl: Option<nat>, at: nat)
    ensures Takes(e, AfterReplicate(e, key, data, version, ttl, at), key, data, ttl, version)
  {
  }

  /** A second copy of the write changes nothing. */
  lemma {:induction false} TakesTwice(
      e: Engine, mid: Engine, e': Engine, key: string, data: seq<byte>, ttl: Option<nat>, version: u64)
    requires MayTake(e, mid, key, data, ttl, version)
    ensures MayTake(mid, e', key, data, ttl, version) ==> MayTake(e, e', key, data, ttl, version)
    ensures Takes(mid, e', key, data, ttl, version) ==> Takes(e, e', key, data, ttl, version)
  {
  }

  /** These nodes have been sent the write, and `answered` of them acknowledged it. */
  ghost predicate SentTo(before: map<string, Engine>, now: map<string, Engine>, sent: seq<string>,
                         answered: set<string>, key: string, data: seq<byte>, ttl: Option<nat>, version: u64)
  {
    && now.Keys == before.Keys
    && (forall n :: n in answered ==> n in sent)
    && forall n :: n in now ==>
         if n in answered then Takes(before[n], now[n], key, data, ttl, version)
         else if n in sent then MayTake(before[n], now[n], key, data, ttl, version)
         else now[n] == before[n]
  }

  lemma {:induction false} SentToNext(
      before: map<string, Engine>, mid: map<string, Engine>, now: map<string, Engine>, sent: seq<string>, n: string,
      answered: set<string>, acked: bool, key: string, data: seq<byte>, ttl: Option<nat>, version: u64)
    requires SentTo(before, mid, sent, answered, key, data, ttl, version) && n in mid && n !in sent
    requires now.Keys == mid.Keys && forall m :: m in mid && m != n ==> now[m] == mid[m]
    requires MayTake(mid[n], now[n], key, data, ttl, version)
    requires acked ==> Takes(mid[n], now[n], key, data, ttl, version)
    ensures SentTo(before, now, sent + [n], if acked then answered + {n} else answered, key, data, ttl, version)
  {
    assert mid[n] == before[n];
  }

  /** The node that gives a put its version: the coordinator if it is a replica, else the primary. */
  function OriginOf(at: string, replicas: seq<string>): string {
    if at in replicas || replicas == [] then at else replicas[0]
  }

  /** Nobody else touches the nodes meanwhile. */
  ghost predicate Quiet(s: Schedule) {
    forall n :: s.others(n) == []
  }

  class Cluster {
    const ring: Ring
    const hash: Hash
    const replicationFactor: nat
    const writeQuorum: nat
    var engines: map<string, Engine>
    ghost var held: set<Held>
    ghost var received: set<Receipt>

    function Replicas(key: string): seq<string> {
      First(Preference(ring.vnodes, hash(key)), replicationFactor)
    }

    /** The history covers what every node stores. */
    ghost predicate Valid()
      reads this
    {
      && ValidRing(ring)
      && (forall n :: n in ring.nodes ==> n in engines)
      && forall n, k :: n in engines && k in engines[n].store ==> Held(n, k, engines[n].store[k].version) in held
    }

    constructor (ring: Ring, hash: Hash, replicationFactor: nat, writeQuorum: nat)
      requires ValidRing(ring)
      ensures Valid() && held == {} && received == {}
      ensures this.ring == ring && this.hash == hash
      ensures this.replicationFactor == replicationFactor && this.writeQuorum == writeQuorum
    {
      this.ring, this.hash := ring, hash;
      this.replicationFactor, this.writeQuorum := replicationFactor, writeQuorum;
      this.engines := map n | n in ring.nodes :: EMPTY;
      this.held, this.received := {}, {};
    }

    lemma {:induction false} ReplicasAreNodes(key: string)
      requires ValidRing(ring)
      ensures NoDuplicates(Replicas(key)) && forall n :: n in Replicas(key) ==> n in ring.nodes
    {
      ReplicaList(ring.vnodes, hash(key), replicationFactor, replicationFactor);
    }

    method LocalPut(node: string, key: string, data: seq<byte>, ttl: Option<nat>, at: nat) returns (version: u64)
      requires Valid() && node in engines
      modifies this
      ensures Valid() && engines.Keys == old(engines.Keys)
      ensures engines == old(engines)[node := AfterPut(old(engines)[node], key, data, ttl, at)]
      ensures version == NextVersion(old(engines)[node].counter)
      ensures held == old(held) + {Held(node, key, version)}
      ensures received == old(received) + {Receipt(node, key, data, ttl, version)}
    {
      engines := engines[node := AfterPut(engines[node], key, data, ttl, at)];
      version := engines[node].counter;
      held := held + {Held(node, key, version)};
      received := received + {Receipt(node, key, data, ttl, version)};
    }

    /** The `Replicate` arm of the server: the storage call, then an acknowledgement either way. */
    method HandleReplicate(node: string, key: string, data: seq<byte>, version: u64, ttl: Option<nat>, at: nat)
      returns (r: Response)
      requires Valid() && node in engines
      modifies this
      ensures Valid() && engines.Keys == old(engines.Keys) && old(held) <= held
      ensures engines == old(engines)[node := AfterReplicate(old(engines)[node], key, data, version, ttl, at)]
      ensures HeldAtLeast(held, node, key, version) && r == Ack(version)
      ensures received == old(received) + {Receipt(node, key, data, ttl, version)}
    {
      received := received + {Receipt(node, key, data, ttl, version)};
      if Accepts(engines[node], key, version) {
        held := held + {Held(node, key, version)};
        assert Held(node, key, version) in held;
      } else {
        assert Held(node, key, engines[node].store[key].version) in held;
      }
      engines := engines[node := AfterReplicate(engines[node], key, data, version, ttl, at)];
      return Ack(version);
    }

    /** Others' storage calls on any nodes, deletions and expiries included. */
    method Interfere(calls: seq<Interference>)
      requires Valid()
      modifies this
      ensures Valid() && engines.Keys == old(engines.Keys) && old(held) <= held && old(received) <= received
      ensures calls == [] ==> engines == old(engines)
    {
      for i := 0 to |calls|
        invariant Valid() && engines.Keys == old(engines.Keys) && old(held) <= held && old(received) <= received
        invariant calls == [] ==> engines == old(engines)
      {
        var c := calls[i];
        if c.node in engines {
          match c
          case OtherPut(n, key, data, ttl, at) => var _ := LocalPut(n, key, data, ttl, at);
          case OtherReplicate(n, key, data, version, ttl, at) =>
            var _ := HandleReplicate(n, key, data, version, ttl, at);
          case OtherDrop(n, key) =>
            engines := engines[n := engines[n].(store := engines[n].store - {key})];
        }
      }
    }

    /** How many acknowledgements a coordinator counts: one for its own write or
        the forwarded one, and one per peer that answers its `Replicate`. */
    ghost function Acks(at: string, key: string, s: Schedule): nat {
      1 + |Answering(at, key, s)|
    }

    ghost function Answering(at: string, key: string, s: Schedule): set<string> {
      set n | n in Replicas(key) && n != at && n in s.pool && s.reply(n) == Acked
    }

    /** Everything that answered was told to store exactly this write. */
    ghost predicate Delivered(at: string, key: string, data: seq<byte>, ttl: Option<nat>, version: u64, s: Schedule)
      reads this
    {
      forall n :: n in Answering(at, key, s) ==> Receipt(n, key, data, ttl, version) in received
    }

    /** After a put that nobody disturbed: its origin stores the write, the other
        replicas took it or did not get it, and all other nodes and keys are as before. */
    ghost predicate Reached(before: map<string, Engine>, now: map<string, Engine>, origin: string, key: string,
                            data: seq<byte>, ttl: Option<nat>, version: u64)
    {
      && now.Keys == before.Keys && origin in now
      && Stores(now[origin], key, data, ttl, version)
      && now[origin].store - {key} == before[origin].store - {key}
      && forall n :: n in now && n != origin ==>
           && MayTake(before[n], now[n], key, data, ttl, version)
           && (n !in Replicas(key) ==> now[n] == before[n])
    }

    /** Exactly when a put succeeds: a replica needs W acknowledgements; any other
        node needs the primary's put to succeed and W counted acknowledgements. */
    ghost predicate Succeeds(at: string, key: string, mine: Schedule, primarys: Schedule) {
      var replicas := Replicas(key);
      && replicas != []
      && Acks(at, key, mine) >= writeQuorum
      && (at !in replicas ==>
            && replicas[0] in mine.pool && mine.forward == Acked
            && Acks(replicas[0], key, primarys) >= writeQuorum)
    }

    /** Whenever a put reports version v, at least W distinct replicas of the key
        have held an entry of version v or above, whatever the schedules and the
        interference. The measure says that a put is forwarded at most once. */
    method PutReplicated(at: string, key: string, data: seq<byte>, ttl: Option<nat>,
                         mine: Schedule, primarys: Schedule) returns (r: Result)
      requires Valid() && at in engines
      modifies this
      ensures Valid() && engines.Keys == old(engines.Keys) && old(held) <= held && old(received) <= received
      ensures r.Ok? ==> |Holders(held, Replicas(key), key, r.version)| >= writeQuorum
      ensures r.Ok? <==> Succeeds(at, key, mine, primarys)
      ensures r.Ok? ==> Delivered(at, key, data, ttl, r.version, mine)
      ensures r.Ok? ==> Receipt(OriginOf(at, Replicas(key)), key, data, ttl, r.version) in received
      ensures r.Ok? && at !in Replicas(key) ==>
        Delivered(Replicas(key)[0], key, data, ttl, r.version, primarys)
      ensures r.Ok? && Quiet(mine) && Quiet(primarys) ==>
        && Reached(old(engines), engines, OriginOf(at, Replicas(key)), key, data, ttl, r.version)
        && forall n :: n in Answering(at, key, mine) && n != OriginOf(at, Replicas(key)) ==>
             n in engines && Takes(old(engines)[n], engines[n], key, data, ttl, r.version)
      ensures r.QuorumNotMet? ==> r.acks == Acks(at, key, mine) < r.required == writeQuorum
      ensures r.NoReplicaAvailable? <==>
        Replicas(key) == [] || (at !in Replicas(key) && Replicas(key)[0] !in mine.pool)
      decreases if at in Replicas(key) then 0 else 1, 2
    {
      var replicas := Replicas(key);
      ReplicasAreNodes(key);
      if replicas == [] {
        return NoReplicaAvailable;
      }
      var obtained := ObtainVersion(at, key, data, ttl, mine, primarys);
      if !obtained.Ok? {
        return obtained;
      }
      ghost var first, mid := held, engines;
      var version := obtained.version;
      var acks := SendToPeers(at, key, data, version, ttl, mine);
      if Quiet(mine) && Quiet(primarys) {
        StillReached(old(engines), mid, engines, at, OriginOf(at, replicas), key, data, ttl, version, mine);
      }
      if acks >= writeQuorum {
        if at in replicas {
          HeldGrows(first, held, at, key, version);
          AckersHold(at, key, version, mine, held);
        } else {
          HoldersGrow(first, held, replicas, key, version);
        }
        return Ok(version);
      }
      return QuorumNotMet(acks, writeQuorum);
    }

    /** A replica writes locally and makes the version; any other node forwards the put
        to the first replica, which makes it. */
    method ObtainVersion(at: string, key: string, data: seq<byte>, ttl: Option<nat>,
                         mine: Schedule, primarys: Schedule) returns (r: Result)
      requires Valid() && at in engines && Replicas(key) != []
      modifies this
      ensures Valid() && engines.Keys == old(engines.Keys) && old(held) <= held && old(received) <= received
      ensures r.NoReplicaAvailable? <==> at !in Replicas(key) && Replicas(key)[0] !in mine.pool
      ensures !r.QuorumNotMet?
      ensures r.Ok? <==> (at !in Replicas(key) ==>
                            && Replicas(key)[0] in mine.pool && mine.forward == Acked
                            && Acks(Replicas(key)[0], key, primarys) >= writeQuorum)
      ensures r.Ok? ==> Receipt(OriginOf(at, Replicas(key)), key, data, ttl, r.version) in received
      ensures r.Ok? && at in Replicas(key) ==> HeldAtLeast(held, at, key, r.version)
      ensures r.Ok? && at !in Replicas(key) ==>
        && Delivered(Replicas(key)[0], key, data, ttl, r.version, primarys)
        && |Holders(held, Replicas(key), key, r.version)| >= writeQuorum
      ensures r.Ok? && Quiet(mine) && Quiet(primarys) ==>
        Reached(old(engines), engines, OriginOf(at, Replicas(key)), key, data, ttl, r.version)
      decreases if at in Replicas(key) then 0 else 1, 1
    {
      ReplicasAreNodes(key);
      if at in Replicas(key) {
        var version := LocalPut(at, key, data, ttl, mine.clock(at));
        assert Held(at, key, version) in held;
        return Ok(version);
      }
      var target := Replicas(key)[0];
      if target !in mine.pool {
        return NoReplicaAvailable;
      }
      Interfere(mine.others(at));
      if mine.forward == NotDelivered {
        return Network;
      }
      var response := HandlePut(target, key, data, ttl, primarys);
      if mine.forward == ReplyLost || response.Error? {
        return Network;
      }
      return Ok(response.version);
    }

    /** The `Put` arm of the server. */
    method HandlePut(at: string, key: string, data: seq<byte>, ttl: Option<nat>, s: Schedule) returns (r: Response)
      requires Valid() && at in engines && at in Replicas(key)
      modifies this
      ensures Valid() && engines.Keys == old(engines.Keys) && old(held) <= held && old(received) <= received
      ensures r.Ack? ==> |Holders(held, Replicas(key), key, r.version)| >= writeQuorum
      ensures r.Ack? <==> Acks(at, key, s) >= writeQuorum
      ensures r.Ack? ==>
        Receipt(at, key, data, ttl, r.version) in received && Delivered(at, key, data, ttl, r.version, s)
      ensures r.Ack? && Quiet(s) ==> Reached(old(engines), engines, at, key, data, ttl, r.version)
      decreases 0, 3
    {
      var result := PutReplicated(at, key, data, ttl, s, s);
      return if result.Ok? then Ack(result.version) else Error;
    }

    /** One `Replicate` call: true when its acknowledgement arrives in time. */
    method Send(n: string, key: string, data: seq<byte>, version: u64, ttl: Option<nat>, s: Schedule)
      returns (acked: bool)
      requires Valid() && n in engines
      modifies this
      ensures Valid() && engines.Keys == old(engines.Keys) && old(held) <= held && old(received) <= received
      ensures acked == (s.reply(n) == Acked)
      ensures acked ==> HeldAtLeast(held, n, key, version)
      ensures acked ==> Receipt(n, key, data, ttl, version) in received
      ensures s.others(n) == [] ==>
        && (forall m :: m in engines && m != n ==> engines[m] == old(engines)[m])
        && MayTake(old(engines)[n], engines[n], key, data, ttl, version)
        && (acked ==> Takes(old(engines)[n], engines[n], key, data, ttl, version))
    {
      Interfere(s.others(n));
      if s.reply(n) == NotDelivered {
        return false;
      }
      ReplicateTakes(engines[n], key, data, version, ttl, s.clock(n));
      var response := HandleReplicate(n, key, data, version, ttl, s.clock(n));
      return s.reply(n) == Acked && response.Ack?;
    }

    /** Spawns one `Replicate` per connected replica other than the coordinator,
        then waits for all of them and counts the acknowledgements. */
    method SendToPeers(at: string, key: string, data: seq<byte>, version: u64, ttl: Option<nat>, s: Schedule)
      returns (acks: nat)
      requires Valid()
      modifies this
      ensures Valid() && engines.Keys == old(engines.Keys) && old(held) <= held && old(received) <= received
      ensures acks == Acks(at, key, s)
      ensures forall n :: n in Answering(at, key, s) ==> HeldAtLeast(held, n, key, version)
      ensures Delivered(at, key, data, ttl, version, s)
      ensures Quiet(s) ==> Sent(old(engines), engines, at, key, data, ttl, version, s)
    {
      ReplicasAreNodes(key);
      var tasks := Tasks(Replicas(key), at, s.pool);
      TasksMembers(Replicas(key), at, s.pool);
      acks := 1;
      ghost var answered: set<string> := {};
      for i := 0 to |tasks|
        invariant Valid() && engines.Keys == old(engines.Keys) && old(held) <= held && old(received) <= received
        invariant acks == 1 + |answered|
        invariant forall n :: n in answered <==> n in tasks[..i] && s.reply(n) == Acked
        invariant forall n :: n in answered ==> HeldAtLeast(held, n, key, version)
        invariant forall n :: n in answered ==> Receipt(n, key, data, ttl, version) in received
        invariant Quiet(s) ==> SentTo(old(engines), engines, tasks[..i], answered, key, data, ttl, version)
      {
        ghost var before, mid, asked := held, engines, answered;
        assert tasks[i] !in tasks[..i];
        var acked := Send(tasks[i], key, data, version, ttl, s);
        forall n | n in answered ensures HeldAtLeast(held, n, key, version) {
          HeldGrows(before, held, n, key, version);
        }
        if acked {
          acks := acks + 1;
          answered := answered + {tasks[i]};
        }
        assert tasks[..i + 1] == tasks[..i] + [tasks[i]];
        if Quiet(s) {
          SentToNext(old(engines), mid, engines, tasks[..i], tasks[i], asked, acked, key, data, ttl, version);
        }
      }
      assert tasks[..|tasks|] == tasks;
      if Quiet(s) {
        AllSent(old(engines), engines, at, tasks, answered, key, data, ttl, version, s);
      }
      assert answered == Answering(at, key, s);
    }

    /** After sending to the peers undisturbed: those that answered took the write, the
        other replicas may have, and the coordinator and all other nodes are as before. */
    ghost predicate Sent(before: map<string, Engine>, now: map<string, Engine>, at: string, key: string,
                         data: seq<byte>, ttl: Option<nat>, version: u64, s: Schedule)
    {
      && now.Keys == before.Keys
      && forall n :: n in now ==>
           && MayTake(before[n], now[n], key, data, ttl, version)
           && (n in Answering(at, key, s) ==> Takes(before[n], now[n], key, data, ttl, version))
           && (n == at || n !in Replicas(key) ==> now[n] == before[n])
    }

    lemma {:induction false} AllSent(
        before: map<string, Engine>, now: map<string, Engine>, at: string, tasks: seq<string>, answered: set<string>,
        key: string, data: seq<byte>, ttl: Option<nat>, version: u64, s: Schedule)
      requires SentTo(before, now, tasks, answered, key, data, ttl, version)
      requires forall n :: n in tasks <==> n in Replicas(key) && n != at && n in s.pool
      requires forall n :: n in answered <==> n in tasks && s.reply(n) == Acked
      ensures Sent(before, now, at, key, data, ttl, version, s)
    {
    }

    /** Sending on to the peers keeps what the put had reached before. */
    lemma {:induction false} StillReached(
        before: map<string, Engine>, mid: map<string, Engine>, now: map<string, Engine>, at: string, origin: string,
        key: string, data: seq<byte>, ttl: Option<nat>, version: u64, s: Schedule)
      requires Reached(before, mid, origin, key, data, ttl, version)
      requires Sent(mid, now, at, key, data, ttl, version, s)
      ensures Reached(before, now, origin, key, data, ttl, version)
      ensures forall n :: n in Answering(at, key, s) && n in now && n != origin ==>
        Takes(before[n], now[n], key, data, ttl, version)
    {
      assert now[origin].store == mid[origin].store;
      forall n | n in now && n != origin
        ensures MayTake(before[n], now[n], key, data, ttl, version)
        ensures n in Answering(at, key, s) ==> Takes(before[n], now[n], key, data, ttl, version)
      {
        TakesTwice(before[n], mid[n], now[n], key, data, ttl, version);
      }
    }

    lemma {:induction false} AckersHold(at: string, key: string, version: u64, s: Schedule, held: set<Held>)
      requires at in Replicas(key) && HeldAtLeast(held, at, key, version)
      requires forall n :: n in Answering(at, key, s) ==> HeldAtLeast(held, n, key, version)
      ensures |Holders(held, Replicas(key), key, version)| >= Acks(at, key, s)
    {
      var ackers := Answering(at, key, s) + {at};
      assert ackers <= Holders(held, Replicas(key), key, version);
      SubsetSize(ackers, Holders(held, Replicas(key), key, version));
    }

    /** The forwarding path counts the primary twice: when only the primary answers, a
        node that is not a replica counts two acknowledgements. With a write quorum of
        two or less it then reports success exactly when the primary's own quorum was
        met, which is all that stands between it and a false report. */
    lemma {:induction false} ForwardingCountsPrimaryTwice(at: string, key: string, s: Schedule, primarys: Schedule)
      requires Replicas(key) != [] && at !in Replicas(key)
      requires forall n :: n in Answering(at, key, s) <==> n == Replicas(key)[0]
      ensures Acks(at, key, s) == 2 && |Answering(at, key, s) + {Replicas(key)[0]}| == 1
      ensures writeQuorum <= 2 ==>
        (Succeeds(at, key, s, primarys) <==>
           s.forward == Acked && Acks(Replicas(key)[0], key, primarys) >= writeQuorum)
    {
      assert Answering(at, key, s) == {Replicas(key)[0]};
      assert Replicas(key)[0] in Answering(at, key, s);
    }
  }

  /** The replicas a coordinator sends to, in ring order. */
  function Tasks(replicas: seq<string>, at: string, pool: set<string>): seq<string> {
    if replicas == [] then [] else
    var rest := Tasks(replicas[..|replicas| - 1], at, pool);
    var n := replicas[|replicas| - 1];
    if n == at || n !in pool then rest else rest + [n]
  }

  lemma {:induction false} TasksMembers(replicas: seq<string>, at: string, pool: set<string>)
    requires NoDuplicates(replicas)
    ensures NoDuplicates(Tasks(replicas, at, pool))
    ensures forall n :: n in Tasks(replicas, at, pool) <==> n in replicas && n != at && n in pool
  {
    if replicas == [] {
    } else {
      var init, last := replicas[..|replicas| - 1], replicas[|replicas| - 1];
      TasksMembers(init, at, pool);
      assert replicas == init + [last] && last !in init;
    }
  }
}
