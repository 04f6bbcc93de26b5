/** The storage engine of one node: versioned entries, last writer wins, and a
    version counter shared by local and replicated writes. Time is a parameter.
    Arithmetic is that of a release build: where the version after 2^64 - 1 is 0
    here, a checked build panics in `put`. */
module Storage {
  import opened Options
  import opened Words

  datatype Entry = Entry(data: seq<byte>, version: u64, createdAt: nat, ttl: Option<nat>)

  predicate Expired(e: Entry, now: nat) {
    e.ttl.Some? && now - e.createdAt > e.ttl.value
  }

  datatype Stats = Stats(gets: nat, puts: nat, deletes: nat, hits: nat, misses: nat, expired: nat)

  /** The part of the engine that writes depend on. */
  datatype Engine = Engine(store: map<string, Entry>, counter: u64)

  const EMPTY := Engine(map[], 0)

  /** The version a local write gets; the counter wraps around at 2^64. */
  function NextVersion(counter: u64): u64 { (counter + 1) % WORD }

  function AfterPut(e: Engine, key: string, data: seq<byte>, ttl: Option<nat>, now: nat): Engine {
    var v := NextVersion(e.counter);
    Engine(e.store[key := Entry(data, v, now, ttl)], v)
  }

  predicate Accepts(e: Engine, key: string, version: u64) {
    key in e.store ==> e.store[key].version < version
  }

  function AfterReplicate(e: Engine, key: string, data: seq<byte>, version: u64, ttl: Option<nat>, now: nat): Engine {
    Engine(if Accepts(e, key, version) then e.store[key := Entry(data, version, now, ttl)] else e.store,
           if version > e.counter then version else e.counter)
  }

  function Unexpired(store: map<string, Entry>, now: nat): map<string, Entry> {
    map k | k in store && !Expired(store[k], now) :: store[k]
  }

  /** What a read at this time returns. */
  function Lookup(e: Engine, key: string, now: nat): Option<Entry> {
    if key in e.store && !Expired(e.store[key], now) then Some(e.store[key]) else None
  }

  class StorageEngine {
    var store: map<string, Entry>
    var versionCounter: u64
    var gets: nat
    var puts: nat
    var deletes: nat
    var hits: nat
    var misses: nat
    var expired: nat

    ghost function Value(): Engine
      reads this
    {
      Engine(store, versionCounter)
    }

    ghost function Counts(): Stats
      reads this
    {
      Stats(gets, puts, deletes, hits, misses, expired)
    }

    /** Every read is a hit or a miss. */
    ghost predicate Valid()
      reads this
    {
      gets == hits + misses
    }

    constructor ()
      ensures Valid() && Value() == EMPTY && Counts() == Stats(0, 0, 0, 0, 0, 0)
    {
      store, versionCounter := map[], 0;
      gets, puts, deletes, hits, misses, expired := 0, 0, 0, 0, 0, 0;
    }

    /** An expired entry reads as absent and is dropped; nothing else changes. */
    method Get(key: string, now: nat) returns (r: Option<Entry>)
      requires Valid()
      modifies this
      ensures Valid() && versionCounter == old(versionCounter)
      ensures r == Lookup(old(Value()), key, now)
      ensures r.Some? ==> store == old(store)
      ensures r.None? ==> store == old(store) - {key}
      ensures gets == old(gets) + 1 && puts == old(puts) && deletes == old(deletes)
      ensures hits == old(hits) + (if r.Some? then 1 else 0)
      ensures expired == old(expired) + |old(store)| - |store|
    {
      gets := gets + 1;
      if key in store && Expired(store[key], now) {
        RemovedOne(store, key);
        store := store - {key};
        expired := expired + 1;
        misses := misses + 1;
        return None;
      } else if key in store {
        hits := hits + 1;
        return Some(store[key]);
      } else {
        assert store == store - {key};
        misses := misses + 1;
        return None;
      }
    }

    method Put(key: string, data: seq<byte>, ttl: Option<nat>, now: nat) returns (version: u64)
      requires Valid()
      modifies this
      ensures Valid() && Value() == AfterPut(old(Value()), key, data, ttl, now)
      ensures version == versionCounter && key in store && store[key].version == version
      ensures Counts() == old(Counts()).(puts := old(puts) + 1)
    {
      puts := puts + 1;
      version := (versionCounter + 1) % WORD;
      versionCounter := version;
      store := store[key := Entry(data, version, now, ttl)];
    }

    /** The compare-exchange loop that lifts the counter to `version`. Before each
        exchange another thread may set the counter, even back after a wrap: `others`
        lists to what. */
    method RaiseCounter(version: u64, others: seq<u64>)
      modifies this`versionCounter
      ensures versionCounter >= version
      ensures versionCounter in [old(versionCounter), version] + others
      ensures (forall o :: o in others ==> o >= old(versionCounter)) ==> versionCounter >= old(versionCounter)
      ensures others == [] ==>
        versionCounter == if version > old(versionCounter) then version else old(versionCounter)
    {
      var cur := versionCounter;
      var i := 0;
      while version > cur
        invariant 0 <= i <= |others|
        invariant versionCounter in [old(versionCounter)] + others && cur in [old(versionCounter)] + others
        invariant version <= cur ==> versionCounter == cur
        invariant others == [] ==> cur == versionCounter == old(versionCounter)
        decreases |others| - i, if versionCounter == cur then 0 else 1
      {
        if i < |others| {
          versionCounter := others[i];
          i := i + 1;
        }
        if versionCounter == cur {
          versionCounter := version;
          break;
        } else {
          cur := versionCounter;
        }
      }
    }

    method PutWithVersion(key: string, data: seq<byte>, version: u64, ttl: Option<nat>, now: nat)
      returns (applied: bool)
      requires Valid()
      modifies this
      ensures Valid() && Value() == AfterReplicate(old(Value()), key, data, version, ttl, now)
      ensures applied == Accepts(old(Value()), key, version)
      ensures Counts() == old(Counts()).(puts := old(puts) + if applied then 1 else 0)
    {
      RaiseCounter(version, []);
      if key in store && store[key].version >= version {
        return false;
      }
      store := store[key := Entry(data, version, now, ttl)];
      puts := puts + 1;
      return true;
    }

    method Delete(key: string) returns (existed: bool)
      requires Valid()
      modifies this
      ensures Valid() && versionCounter == old(versionCounter)
      ensures store == old(store) - {key} && existed == (key in old(store))
      ensures Counts() == old(Counts()).(deletes := old(deletes) + 1)
    {
      deletes := deletes + 1;
      existed := key in store;
      store := store - {key};
    }

    /** Exactly the expired entries go, and they are counted. */
    method PurgeExpired(now: nat) returns (count: nat)
      requires Valid()
      modifies this
      ensures Valid() && versionCounter == old(versionCounter)
      ensures store == Unexpired(old(store), now)
      ensures count == |old(store)| - |store| && Counts() == old(Counts()).(expired := old(expired) + count)
    {
      var keys := set k | k in store && Expired(store[k], now);
      count := 0;
      var left := keys;
      while left != {}
        invariant left <= keys && versionCounter == old(versionCounter) && Counts() == old(Counts())
        invariant forall k :: k in store <==> k in old(store) && k !in keys - left
        invariant forall k :: k in store ==> store[k] == old(store)[k]
        invariant count == |old(store)| - |store|
        decreases left
      {
        var k :| k in left;
        RemovedOne(store, k);
        store := store - {k};
        left := left - {k};
        count := count + 1;
      }
      expired := expired + count;
    }
  }

  /** How long an entry may be read: for ever without a lifetime, and otherwise up to and
      including the moment when its lifetime is over. */
  predicate Readable(at: nat, ttl: Option<nat>, now: nat) {
    match ttl
    case None => true
    case Some(life) => now <= at + life
  }

  /** A local write made at `at` is read back, with its data and version, exactly while
      its lifetime lasts, and a purge keeps it exactly as long. */
  lemma {:induction false} ReadYourWrite(
      e: Engine, key: string, data: seq<byte>, ttl: Option<nat>, at: nat, now: nat)
    ensures var e' := AfterPut(e, key, data, ttl, at);
      && e'.counter == NextVersion(e.counter)
      && Lookup(e', key, now) ==
           (if Readable(at, ttl, now) then Some(Entry(data, e'.counter, at, ttl)) else None)
      && (key in Unexpired(e'.store, now) <==> Readable(at, ttl, now))
      && forall k :: k != key ==> Lookup(e', k, now) == Lookup(e, k, now)
  {
  }

  /** So is a replicated write that finds no version as high as its own; any other leaves
      what was there, even if it carries other data under the same version. */
  lemma {:induction false} ReadReplicatedWrite(
      e: Engine, key: string, data: seq<byte>, version: u64, ttl: Option<nat>, at: nat, now: nat)
    ensures var e' := AfterReplicate(e, key, data, version, ttl, at);
      && (if key !in e.store || e.store[key].version < version then
            && Lookup(e', key, now) ==
                 (if Readable(at, ttl, now) then Some(Entry(data, version, at, ttl)) else None)
            && (key in Unexpired(e'.store, now) <==> Readable(at, ttl, now))
          else e'.store == e.store)
      && forall k :: k != key ==> Lookup(e', k, now) == Lookup(e, k, now)
  {
  }

  lemma {:induction false} RemovedOne(m: map<string, Entry>, k: string)
    requires k in m
    ensures |m - {k}| == |m| - 1
  {
    assert (m - {k}).Keys == m.Keys - {k};
    assert |(m - {k}).Keys| == |m - {k}|;
  }

  // ---------------------------------------------------------------------------
  // Last writer wins, over whole runs of local and replicated writes
  // ---------------------------------------------------------------------------

  datatype Write =
    | Local(key: string, data: seq<byte>, ttl: Option<nat>)
    | Replicated(key: string, data: seq<byte>, ttl: Option<nat>, version: u64)

  datatype Arrival = Arrival(write: Write, at: nat)

  /** A write with the version it carries or was given. */
  datatype Stamp = Stamp(key: string, data: seq<byte>, ttl: Option<nat>, version: u64)

  function Stamped(e: Engine, w: Write): Stamp {
    match w
    case Local(key, data, ttl) => Stamp(key, data, ttl, NextVersion(e.counter))
    case Replicated(key, data, ttl, version) => Stamp(key, data, ttl, version)
  }

  function Apply(e: Engine, a: Arrival): Engine {
    match a.write
    case Local(key, data, ttl) => AfterPut(e, key, data, ttl, a.at)
    case Replicated(key, data, ttl, version) => AfterReplicate(e, key, data, version, ttl, a.at)
  }

  function Run(e: Engine, xs: seq<Arrival>): Engine {
    if xs == [] then e else Apply(Run(e, xs[..|xs| - 1]), xs[|xs| - 1])
  }

  /** The writes received, with their versions, rejected ones included. */
  function Received(e: Engine, xs: seq<Arrival>): seq<Stamp> {
    if xs == [] then []
    else Received(e, xs[..|xs| - 1]) + [Stamped(Run(e, xs[..|xs| - 1]), xs[|xs| - 1].write)]
  }

  /** A local write when the counter is used up. */
  predicate Exhausts(e: Engine, w: Write) {
    w.Local? && e.counter == MAX_U64
  }

  /** A local write to a key that holds a greater version than it gets. */
  predicate Undercuts(e: Engine, w: Write) {
    w.Local? && w.key in e.store && e.store[w.key].version > NextVersion(e.counter)
  }

  predicate NeverWraps(xs: seq<Arrival>) {
    forall i :: 0 <= i < |xs| ==> !Exhausts(Run(EMPTY, xs[..i]), xs[i].write)
  }

  predicate NeverUndercuts(xs: seq<Arrival>) {
    forall i :: 0 <= i < |xs| ==> !Undercuts(Run(EMPTY, xs[..i]), xs[i].write)
  }

  ghost predicate Holds(e: Engine, key: string, s: Stamp) {
    key in e.store && s == Stamp(key, e.store[key].data, e.store[key].ttl, e.store[key].version)
  }

  /** Each key holds a greatest-version write among those received for it. */
  ghost predicate GreatestHeld(e: Engine, log: seq<Stamp>) {
    && (forall key :: key in e.store ==> exists s :: s in log && Holds(e, key, s))
    && (forall s :: s in log ==> s.key in e.store && s.version <= e.store[s.key].version)
  }

  /** The counter is the greatest version seen. */
  ghost predicate CounterIsGreatest(e: Engine, log: seq<Stamp>) {
    && (forall s :: s in log ==> s.version <= e.counter)
    && (e.counter == 0 || exists s :: s in log && s.version == e.counter)
  }

  /** A write that takes over its key from no greater version keeps every key at its greatest. */
  lemma {:induction false} TakenKeepsGreatest(e: Engine, s: Stamp, log: seq<Stamp>, at: nat, counter: u64)
    requires GreatestHeld(e, log)
    requires s.key in e.store ==> e.store[s.key].version <= s.version
    ensures GreatestHeld(Engine(e.store[s.key := Entry(s.data, s.version, at, s.ttl)], counter), log + [s])
  {
    var e' := Engine(e.store[s.key := Entry(s.data, s.version, at, s.ttl)], counter);
    assert s in log + [s];
    forall key | key in e'.store
      ensures exists x :: x in log + [s] && Holds(e', key, x)
    {
      if key == s.key {
        assert Holds(e', key, s);
      } else {
        var x :| x in log && Holds(e, key, x);
        assert x in log + [s] && Holds(e', key, x);
      }
    }
  }

  lemma {:induction false} RejectedKeepsGreatest(e: Engine, s: Stamp, log: seq<Stamp>, counter: u64)
    requires GreatestHeld(e, log)
    requires s.key in e.store && s.version <= e.store[s.key].version
    ensures GreatestHeld(Engine(e.store, counter), log + [s])
  {
    forall key | key in e.store
      ensures exists x :: x in log + [s] && Holds(Engine(e.store, counter), key, x)
    {
      var x :| x in log && Holds(e, key, x);
      assert x in log + [s] && Holds(Engine(e.store, counter), key, x);
    }
  }

  /** A key taken over from a greater version is no longer at its greatest. */
  lemma {:induction false} UndercutLosesGreatest(e: Engine, s: Stamp, log: seq<Stamp>, at: nat, counter: u64)
    requires GreatestHeld(e, log) && s.key in e.store && e.store[s.key].version > s.version
    ensures !GreatestHeld(Engine(e.store[s.key := Entry(s.data, s.version, at, s.ttl)], counter), log + [s])
  {
    var x :| x in log && Holds(e, s.key, x);
    assert x in log + [s];
  }

  lemma {:induction false} ApplyKeepsGreatest(e: Engine, a: Arrival, log: seq<Stamp>)
    requires GreatestHeld(e, log)
    ensures GreatestHeld(Apply(e, a), log + [Stamped(e, a.write)]) <==> !Undercuts(e, a.write)
  {
    var s, counter := Stamped(e, a.write), Apply(e, a).counter;
    if Undercuts(e, a.write) {
      UndercutLosesGreatest(e, s, log, a.at, counter);
    } else if a.write.Local? || Accepts(e, s.key, s.version) {
      TakenKeepsGreatest(e, s, log, a.at, counter);
    } else {
      RejectedKeepsGreatest(e, s, log, counter);
    }
  }

  lemma {:induction false} GreaterCounter(log: seq<Stamp>, s: Stamp, e: Engine, e': Engine)
    requires CounterIsGreatest(e, log)
    requires e'.counter == if s.version > e.counter then s.version else e.counter
    ensures CounterIsGreatest(e', log + [s])
  {
    assert s in log + [s];
    if e'.counter == e.counter && e.counter != 0 {
      var x :| x in log && x.version == e.counter;
      assert x in log + [s];
    }
  }

  lemma {:induction false} ApplyKeepsCounter(e: Engine, a: Arrival, log: seq<Stamp>)
    requires CounterIsGreatest(e, log)
    ensures CounterIsGreatest(Apply(e, a), log + [Stamped(e, a.write)]) <==> !Exhausts(e, a.write)
  {
    if Exhausts(e, a.write) {
      var x :| x in log && x.version == e.counter;
      assert x in log + [Stamped(e, a.write)];
    } else {
      GreaterCounter(log, Stamped(e, a.write), e, Apply(e, a));
    }
  }

  /** One write keeps each key at its greatest version if and only if it does not
      undercut, and the counter at the greatest version seen if and only if it does
      not find it used up. */
  lemma {:induction false} ApplyKeeps(e: Engine, a: Arrival, log: seq<Stamp>)
    ensures GreatestHeld(e, log) ==>
      (GreatestHeld(Apply(e, a), log + [Stamped(e, a.write)]) <==> !Undercuts(e, a.write))
    ensures CounterIsGreatest(e, log) ==>
      (CounterIsGreatest(Apply(e, a), log + [Stamped(e, a.write)]) <==> !Exhausts(e, a.write))
  {
    if GreatestHeld(e, log) {
      ApplyKeepsGreatest(e, a, log);
    }
    if CounterIsGreatest(e, log) {
      ApplyKeepsCounter(e, a, log);
    }
  }

  lemma {:induction false} PrefixNext(xs: seq<Arrival>, i: nat)
    requires i < |xs|
    ensures var e := Run(EMPTY, xs[..i]);
      && Run(EMPTY, xs[..i + 1]) == Apply(e, xs[i])
      && Received(EMPTY, xs[..i + 1]) == Received(EMPTY, xs[..i]) + [Stamped(e, xs[i].write)]
  {
    assert xs[..i + 1][..i] == xs[..i];
  }

  /** After i writes each key holds a greatest-version write received for it. */
  ghost predicate GreatestAt(xs: seq<Arrival>, i: nat)
    requires i <= |xs|
  {
    GreatestHeld(Run(EMPTY, xs[..i]), Received(EMPTY, xs[..i]))
  }

  /** After i writes the counter is the greatest version received, rejected writes included. */
  ghost predicate CounterAt(xs: seq<Arrival>, i: nat)
    requires i <= |xs|
  {
    CounterIsGreatest(Run(EMPTY, xs[..i]), Received(EMPTY, xs[..i]))
  }

  lemma {:induction false} GreatestWhileNotUndercut(xs: seq<Arrival>, i: nat)
    requires i <= |xs| && NeverUndercuts(xs)
    ensures GreatestAt(xs, i)
  {
    if i == 0 {
      assert xs[..0] == [];
    } else {
      GreatestWhileNotUndercut(xs, i - 1);
      PrefixNext(xs, i - 1);
      ApplyKeepsGreatest(Run(EMPTY, xs[..i - 1]), xs[i - 1], Received(EMPTY, xs[..i - 1]));
    }
  }

  lemma {:induction false} CounterWhileNotWrapped(xs: seq<Arrival>, i: nat)
    requires i <= |xs| && NeverWraps(xs)
    ensures CounterAt(xs, i)
  {
    if i == 0 {
      assert xs[..0] == [];
    } else {
      CounterWhileNotWrapped(xs, i - 1);
      PrefixNext(xs, i - 1);
      ApplyKeepsCounter(Run(EMPTY, xs[..i - 1]), xs[i - 1], Received(EMPTY, xs[..i - 1]));
    }
  }

  /** Last writer wins, exactly: at every moment of a run of local and replicated
      writes each key holds a greatest-version write received for it, if and only if no
      local write undercuts its key. */
  lemma {:induction false} LastWriterWins(xs: seq<Arrival>)
    ensures (forall i :: 0 <= i <= |xs| ==> GreatestAt(xs, i)) <==> NeverUndercuts(xs)
  {
    if NeverUndercuts(xs) {
      forall i | 0 <= i <= |xs|
        ensures GreatestAt(xs, i)
      {
        GreatestWhileNotUndercut(xs, i);
      }
    }
    if forall i :: 0 <= i <= |xs| ==> GreatestAt(xs, i) {
      forall i | 0 <= i < |xs|
        ensures !Undercuts(Run(EMPTY, xs[..i]), xs[i].write)
      {
        assert GreatestAt(xs, i) && GreatestAt(xs, i + 1);
        PrefixNext(xs, i);
        ApplyKeepsGreatest(Run(EMPTY, xs[..i]), xs[i], Received(EMPTY, xs[..i]));
      }
    }
  }

  /** At every moment the counter is the greatest version received, rejected writes
      included, if and only if no local write finds it used up. */
  lemma {:induction false} CounterCoversVersions(xs: seq<Arrival>)
    ensures (forall i :: 0 <= i <= |xs| ==> CounterAt(xs, i)) <==> NeverWraps(xs)
  {
    if NeverWraps(xs) {
      forall i | 0 <= i <= |xs|
        ensures CounterAt(xs, i)
      {
        CounterWhileNotWrapped(xs, i);
      }
    }
    if forall i :: 0 <= i <= |xs| ==> CounterAt(xs, i) {
      forall i | 0 <= i < |xs|
        ensures !Exhausts(Run(EMPTY, xs[..i]), xs[i].write)
      {
        assert CounterAt(xs, i) && CounterAt(xs, i + 1);
        PrefixNext(xs, i);
        ApplyKeepsCounter(Run(EMPTY, xs[..i]), xs[i], Received(EMPTY, xs[..i]));
      }
    }
  }

  lemma {:induction false} CoveredIsNotUndercut(e: Engine, log: seq<Stamp>, w: Write)
    requires GreatestHeld(e, log) && CounterIsGreatest(e, log) && !Exhausts(e, w)
    ensures !Undercuts(e, w)
  {
    if w.Local? && w.key in e.store {
      var x :| x in log && Holds(e, w.key, x);
    }
  }

  lemma {:induction false} UnwrappedHeldAt(xs: seq<Arrival>, i: nat)
    requires i <= |xs| && NeverWraps(xs)
    ensures GreatestAt(xs, i)
  {
    if i == 0 {
      assert xs[..0] == [];
    } else {
      var e, log := Run(EMPTY, xs[..i - 1]), Received(EMPTY, xs[..i - 1]);
      UnwrappedHeldAt(xs, i - 1);
      CounterWhileNotWrapped(xs, i - 1);
      CoveredIsNotUndercut(e, log, xs[i - 1].write);
      PrefixNext(xs, i - 1);
      ApplyKeepsGreatest(e, xs[i - 1], log);
    }
  }

  /** A run whose counter never wraps never undercuts. */
  lemma {:induction false} UnwrappedNeverUndercuts(xs: seq<Arrival>)
    requires NeverWraps(xs)
    ensures NeverUndercuts(xs)
  {
    forall i | 0 <= i <= |xs|
      ensures GreatestAt(xs, i)
    {
      UnwrappedHeldAt(xs, i);
    }
    LastWriterWins(xs);
  }

  lemma {:induction false} ReceivedOnPrefix(xs: seq<Arrival>, i: nat)
    requires i <= |xs|
    ensures Received(EMPTY, xs[..i]) <= Received(EMPTY, xs)
  {
    if i == |xs| {
      assert xs[..i] == xs;
    } else {
      assert xs[..|xs| - 1][..i] == xs[..i];
      ReceivedOnPrefix(xs[..|xs| - 1], i);
    }
  }

  /** A run that never received the greatest version never used up its counter. */
  lemma {:induction false} SmallVersionsNeverWrap(xs: seq<Arrival>, i: nat)
    requires i <= |xs| && forall s :: s in Received(EMPTY, xs) ==> s.version < MAX_U64
    ensures CounterAt(xs, i) && Run(EMPTY, xs[..i]).counter < MAX_U64
  {
    ReceivedOnPrefix(xs, i);
    if i == 0 {
      assert xs[..0] == [];
    } else {
      SmallVersionsNeverWrap(xs, i - 1);
      PrefixNext(xs, i - 1);
      ApplyKeepsCounter(Run(EMPTY, xs[..i - 1]), xs[i - 1], Received(EMPTY, xs[..i - 1]));
    }
    assert forall s :: s in Received(EMPTY, xs[..i]) ==> s in Received(EMPTY, xs);
  }

  lemma {:induction false} NextDominates(e: Engine, log: seq<Stamp>)
    requires CounterIsGreatest(e, log) && e.counter < MAX_U64
    ensures forall s :: s in log ==> s.version < NextVersion(e.counter)
  {
  }

  /** A local write gets a version above every version received before it if and only
      if all of them are below the greatest version there is, whether or not the
      counter wrapped meanwhile. */
  lemma {:induction false} LocalWriteDominates(xs: seq<Arrival>)
    ensures (forall s :: s in Received(EMPTY, xs) ==> s.version < NextVersion(Run(EMPTY, xs).counter))
      <==> (forall s :: s in Received(EMPTY, xs) ==> s.version < MAX_U64)
  {
    if forall s :: s in Received(EMPTY, xs) ==> s.version < MAX_U64 {
      SmallVersionsNeverWrap(xs, |xs|);
      assert xs[..|xs|] == xs;
      NextDominates(Run(EMPTY, xs), Received(EMPTY, xs));
    }
    assert NextVersion(Run(EMPTY, xs).counter) <= MAX_U64;
  }

  /** After the greatest version arrived, a local write wraps the counter to 0: the next
      local write is below what was received, although the counter is not used up. */
  lemma {:induction false} WrappedCounterDoesNotDominate()
    ensures var xs := [Arrival(Replicated("k", [], None, MAX_U64), 0), Arrival(Local("j", [], None), 0)];
      && Run(EMPTY, xs).counter == 0 && NextVersion(Run(EMPTY, xs).counter) == 1
      && Stamp("k", [], None, MAX_U64) in Received(EMPTY, xs)
  {
    var first := [Arrival(Replicated("k", [], None, MAX_U64), 0)];
    var xs := first + [Arrival(Local("j", [], None), 0)];
    assert first[..0] == [] && xs[..1] == first;
    assert Run(EMPTY, first) == Apply(EMPTY, first[0]);
    var s := Stamp("k", [], None, MAX_U64);
    assert Received(EMPTY, first) == [s];
    assert s in Received(EMPTY, xs);
  }

  ghost predicate DistinctVersions(log: seq<Stamp>) {
    forall s, t :: s in log && t in log && s.key == t.key && s.version == t.version ==> s == t
  }

  /** The same keys with the same data, lifetimes and versions. */
  ghost predicate SameData(a: Engine, b: Engine) {
    && a.store.Keys == b.store.Keys
    && forall key :: key in a.store ==>
         && a.store[key].version == b.store[key].version
         && a.store[key].data == b.store[key].data
         && a.store[key].ttl == b.store[key].ttl
  }

  lemma {:induction false} SameKeys(a: Engine, b: Engine, la: seq<Stamp>, lb: seq<Stamp>)
    requires GreatestHeld(a, la) && GreatestHeld(b, lb) && forall s :: s in la <==> s in lb
    ensures a.store.Keys == b.store.Keys
  {
    forall key ensures key in a.store <==> key in b.store {
      if key in a.store {
        var s :| s in la && Holds(a, key, s);
        assert s in lb;
      }
      if key in b.store {
        var s :| s in lb && Holds(b, key, s);
        assert s in la;
      }
    }
  }

  lemma {:induction false} SameGreatest(s: Stamp, t: Stamp, la: seq<Stamp>, lb: seq<Stamp>)
    requires (forall x :: x in la <==> x in lb) && DistinctVersions(la) && s.key == t.key
    requires s in la && forall x :: x in la && x.key == s.key ==> x.version <= s.version
    requires t in lb && forall x :: x in lb && x.key == t.key ==> x.version <= t.version
    ensures s == t
  {
    assert s in lb && t in la;
  }

  lemma {:induction false} SameEntries(a: Engine, b: Engine, la: seq<Stamp>, lb: seq<Stamp>)
    requires GreatestHeld(a, la) && GreatestHeld(b, lb) && (forall s :: s in la <==> s in lb)
    requires DistinctVersions(la) && a.store.Keys == b.store.Keys
    ensures forall key :: key in a.store ==>
      && a.store[key].version == b.store[key].version
      && a.store[key].data == b.store[key].data
      && a.store[key].ttl == b.store[key].ttl
  {
    forall key | key in a.store
      ensures a.store[key].version == b.store[key].version
      ensures a.store[key].data == b.store[key].data && a.store[key].ttl == b.store[key].ttl
    {
      var s :| s in la && Holds(a, key, s);
      var t :| t in lb && Holds(b, key, t);
      SameGreatest(s, t, la, lb);
    }
  }

  lemma {:induction false} SameCounter(a: Engine, b: Engine, la: seq<Stamp>, lb: seq<Stamp>)
    requires CounterIsGreatest(a, la) && CounterIsGreatest(b, lb) && forall s :: s in la <==> s in lb
    ensures a.counter == b.counter
  {
    if a.counter != 0 {
      var s :| s in la && s.version == a.counter;
      assert s in lb;
    }
    if b.counter != 0 {
      var s :| s in lb && s.version == b.counter;
      assert s in la;
    }
  }

  lemma {:induction false} GreatestDetermines(a: Engine, b: Engine, la: seq<Stamp>, lb: seq<Stamp>)
    requires GreatestHeld(a, la) && GreatestHeld(b, lb) && (forall s :: s in la <==> s in lb)
    requires DistinctVersions(la)
    ensures SameData(a, b)
  {
    SameKeys(a, b, la, lb);
    SameEntries(a, b, la, lb);
  }

  /** Two replicas that received the same writes, in any order and with any
      duplicates, and undercut none, agree on every key's data, lifetime and version;
      and on the counter if it never wrapped. */
  lemma {:induction false} ReplicasConverge(xs: seq<Arrival>, ys: seq<Arrival>)
    requires forall s :: s in Received(EMPTY, xs) <==> s in Received(EMPTY, ys)
    requires DistinctVersions(Received(EMPTY, xs))
    ensures NeverUndercuts(xs) && NeverUndercuts(ys) ==> SameData(Run(EMPTY, xs), Run(EMPTY, ys))
    ensures NeverWraps(xs) && NeverWraps(ys) ==>
      SameData(Run(EMPTY, xs), Run(EMPTY, ys)) && Run(EMPTY, xs).counter == Run(EMPTY, ys).counter
  {
    if NeverWraps(xs) && NeverWraps(ys) {
      assert xs[..|xs|] == xs && ys[..|ys|] == ys;
      UnwrappedNeverUndercuts(xs);
      UnwrappedNeverUndercuts(ys);
      CounterWhileNotWrapped(xs, |xs|);
      CounterWhileNotWrapped(ys, |ys|);
      SameCounter(Run(EMPTY, xs), Run(EMPTY, ys), Received(EMPTY, xs), Received(EMPTY, ys));
    }
    if NeverUndercuts(xs) && NeverUndercuts(ys) {
      GreatestAtEnd(xs);
      GreatestAtEnd(ys);
      GreatestDetermines(Run(EMPTY, xs), Run(EMPTY, ys), Received(EMPTY, xs), Received(EMPTY, ys));
    }
  }

  /** The write as another replica receives it. */
  function Forwarded(s: Stamp, at: nat): Arrival {
    Arrival(Replicated(s.key, s.data, s.ttl, s.version), at)
  }

  /** The run of a replica that receives every write of xs, with its version, as
      a replicated one. */
  function Mirrored(xs: seq<Arrival>): (ys: seq<Arrival>)
    ensures |ys| == |xs|
  {
    if xs == [] then [] else
    var init := xs[..|xs| - 1];
    Mirrored(init) + [Forwarded(Stamped(Run(EMPTY, init), xs[|xs| - 1].write), xs[|xs| - 1].at)]
  }

  lemma {:induction false} MirroredReceives(xs: seq<Arrival>)
    ensures Received(EMPTY, Mirrored(xs)) == Received(EMPTY, xs)
    ensures forall i :: 0 <= i < |xs| ==> Mirrored(xs)[i].write.Replicated?
  {
    if xs == [] {
    } else {
      var init := xs[..|xs| - 1];
      MirroredReceives(init);
      assert Mirrored(xs)[..|xs| - 1] == Mirrored(init);
    }
  }

  lemma {:induction false} MirroredNext(xs: seq<Arrival>, i: nat)
    requires i < |xs|
    ensures Run(EMPTY, Mirrored(xs[..i + 1]))
         == Apply(Run(EMPTY, Mirrored(xs[..i])), Forwarded(Stamped(Run(EMPTY, xs[..i]), xs[i].write), xs[i].at))
  {
    assert xs[..i + 1][..i] == xs[..i];
    var ys := Mirrored(xs[..i + 1]);
    assert ys[..|ys| - 1] == Mirrored(xs[..i]);
  }

  /** After i writes the replica agrees with the one that received them all as replicated. */
  ghost predicate AgreesAt(xs: seq<Arrival>, i: nat)
    requires i <= |xs|
  {
    SameData(Run(EMPTY, xs[..i]), Run(EMPTY, Mirrored(xs[..i])))
  }

  lemma {:induction false} UndercutParts(a: Engine, b: Engine, x: Arrival)
    requires SameData(a, b) && Undercuts(a, x.write)
    ensures !SameData(Apply(a, x), Apply(b, Forwarded(Stamped(a, x.write), x.at)))
  {
  }

  lemma {:induction false} GreatestAtEnd(xs: seq<Arrival>)
    requires NeverUndercuts(xs)
    ensures GreatestHeld(Run(EMPTY, xs), Received(EMPTY, xs))
  {
    GreatestWhileNotUndercut(xs, |xs|);
    assert xs[..|xs|] == xs;
  }

  lemma {:induction false} MirroredNeverUndercuts(xs: seq<Arrival>)
    ensures NeverUndercuts(Mirrored(xs))
  {
    MirroredReceives(xs);
  }

  lemma {:induction false} DistinctOnPrefix(xs: seq<Arrival>, i: nat)
    requires i <= |xs| && DistinctVersions(Received(EMPTY, xs))
    ensures DistinctVersions(Received(EMPTY, xs[..i]))
  {
    ReceivedOnPrefix(xs, i);
    assert forall s :: s in Received(EMPTY, xs[..i]) ==> s in Received(EMPTY, xs);
  }

  lemma {:induction false} NotUndercutAgrees(xs: seq<Arrival>, i: nat)
    requires i <= |xs| && DistinctVersions(Received(EMPTY, xs)) && NeverUndercuts(xs)
    ensures AgreesAt(xs, i)
  {
    var ys, log := Mirrored(xs[..i]), Received(EMPTY, xs[..i]);
    GreatestWhileNotUndercut(xs, i);
    MirroredReceives(xs[..i]);
    MirroredNeverUndercuts(xs[..i]);
    GreatestAtEnd(ys);
    DistinctOnPrefix(xs, i);
    GreatestDetermines(Run(EMPTY, xs[..i]), Run(EMPTY, ys), log, Received(EMPTY, ys));
  }

  /** Convergence, exactly: a replica agrees at every moment with one that received the
      same writes as replicated ones, if and only if none of its local writes undercuts. */
  lemma {:induction false} ReplicasPartIff(xs: seq<Arrival>)
    requires DistinctVersions(Received(EMPTY, xs))
    ensures (forall i :: 0 <= i <= |xs| ==> AgreesAt(xs, i)) <==> NeverUndercuts(xs)
  {
    if NeverUndercuts(xs) {
      forall i | 0 <= i <= |xs|
        ensures AgreesAt(xs, i)
      {
        NotUndercutAgrees(xs, i);
      }
    }
    if forall i :: 0 <= i <= |xs| ==> AgreesAt(xs, i) {
      forall i | 0 <= i < |xs|
        ensures !Undercuts(Run(EMPTY, xs[..i]), xs[i].write)
      {
        assert AgreesAt(xs, i) && AgreesAt(xs, i + 1);
        PrefixNext(xs, i);
        MirroredNext(xs, i);
        if Undercuts(Run(EMPTY, xs[..i]), xs[i].write) {
          UndercutParts(Run(EMPTY, xs[..i]), Run(EMPTY, Mirrored(xs[..i])), xs[i]);
        }
      }
    }
  }

  /** A replicated write with the data x. */
  function Push(key: string, x: byte, version: u64): Arrival {
    Arrival(Replicated(key, [x], None, version), 0)
  }

  lemma {:induction false} RunOfThree(a: Arrival, b: Arrival, c: Arrival)
    ensures var x := Apply(EMPTY, a);
      && Run(EMPTY, [a, b, c]) == Apply(Apply(x, b), c)
      && Received(EMPTY, [a, b, c]) == [Stamped(EMPTY, a.write), Stamped(x, b.write), Stamped(Apply(x, b), c.write)]
  {
    assert [a, b, c][..2] == [a, b] && [a, b][..1] == [a] && [a][..0] == [];
    assert Run(EMPTY, [a]) == Apply(EMPTY, a) && Run(EMPTY, [a, b]) == Apply(Apply(EMPTY, a), b);
    assert Received(EMPTY, [a]) == [Stamped(EMPTY, a.write)];
    assert Received(EMPTY, [a, b]) == [Stamped(EMPTY, a.write), Stamped(Apply(EMPTY, a), b.write)];
  }

  /** Once the counter wraps, replicas that received the same writes may part: here the
      one that made the wrapped write locally took it over a greater version. */
  lemma {:induction false} WrappedReplicasDiverge()
    ensures var xs := [Push("j", 5, 5), Push("k", 1, MAX_U64), Arrival(Local("j", [7], None), 0)];
      var ys := [Push("j", 5, 5), Push("k", 1, MAX_U64), Push("j", 7, 0)];
      && Received(EMPTY, xs) == Received(EMPTY, ys) && DistinctVersions(Received(EMPTY, xs))
      && "j" in Run(EMPTY, xs).store && Run(EMPTY, xs).store["j"].data == [7]
      && "j" in Run(EMPTY, ys).store && Run(EMPTY, ys).store["j"].data == [5]
  {
    RunOfThree(Push("j", 5, 5), Push("k", 1, MAX_U64), Arrival(Local("j", [7], None), 0));
    RunOfThree(Push("j", 5, 5), Push("k", 1, MAX_U64), Push("j", 7, 0));
  }

  /** A wrapped counter alone does no harm: the write that wraps may take a fresh key. */
  lemma {:induction false} WrappingMayNotUndercut()
    ensures var xs := [Push("k", 1, MAX_U64), Arrival(Local("j", [7], None), 0)];
      !NeverWraps(xs) && NeverUndercuts(xs)
  {
    var xs := [Push("k", 1, MAX_U64), Arrival(Local("j", [7], None), 0)];
    assert xs[..0] == [] && xs[..1] == [xs[0]] && xs[..1][..0] == [];
    assert Run(EMPTY, xs[..1]) == Apply(EMPTY, xs[0]);
    assert Exhausts(Run(EMPTY, xs[..1]), xs[1].write);
    forall i | 0 <= i < |xs|
      ensures !Undercuts(Run(EMPTY, xs[..i]), xs[i].write)
    {
      assert i == 0 || i == 1;
    }
  }

  // ---------------------------------------------------------------------------
  // The version counter under interference
  // ---------------------------------------------------------------------------

  /** A thread in `put_with_version`: before the load, in the compare-exchange
      loop with the value it last saw, or past the loop. */
  datatype Pc = Loading(version: u64) | Looping(version: u64, cur: u64) | Past(version: u64)

  /** A version handed out by `put`, or one whose loop has finished. */
  datatype Seen = Issued(version: u64) | Absorbed(version: u64)

  datatype Shared = Shared(counter: u64, threads: seq<Pc>, history: seq<Seen>)

  datatype Move = Issue | Enter(version: u64) | Advance(thread: nat)

  predicate Enabled(s: Shared, m: Move) {
    match m
    case Issue => true
    case Enter(_) => true
    case Advance(t) => t < |s.threads| && !s.threads[t].Past?
  }

  function Next(s: Shared, m: Move): Shared
    requires Enabled(s, m)
  {
    match m
    case Issue =>
      var v := NextVersion(s.counter);
      s.(counter := v, history := s.history + [Issued(v)])
    case Enter(version) => s.(threads := s.threads + [Loading(version)])
    case Advance(t) =>
      match s.threads[t]
      case Loading(version) => s.(threads := s.threads[t := Looping(version, s.counter)])
      case Looping(version, cur) =>
        if version <= cur then
          s.(threads := s.threads[t := Past(version)], history := s.history + [Absorbed(version)])
        else if s.counter == cur then
          s.(counter := version, threads := s.threads[t := Past(version)], history := s.history + [Absorbed(version)])
        else s.(threads := s.threads[t := Looping(version, s.counter)])
      case Past(_) => s
  }

  predicate ValidMoves(s: Shared, ms: seq<Move>)
    decreases |ms|
  {
    ms == [] || (Enabled(s, ms[0]) && ValidMoves(Next(s, ms[0]), ms[1..]))
  }

  function Moves(s: Shared, ms: seq<Move>): Shared
    requires ValidMoves(s, ms)
    decreases |ms|
  {
    if ms == [] then s else Moves(Next(s, ms[0]), ms[1..])
  }

  /** Whoever gets a version gets one above everything issued or absorbed before. */
  ghost predicate IssuedAbove(history: seq<Seen>) {
    forall i, j :: 0 <= i < j < |history| && history[j].Issued? ==> history[i].version < history[j].version
  }

  /** Whoever left the loop left the counter at its version or above. */
  ghost predicate Absorbing(counter: u64, threads: seq<Pc>) {
    forall p :: p in threads && p.Past? ==> p.version <= counter
  }

  /** The counter is the greatest version in a history of fresh versions. */
  ghost predicate HistoryInv(counter: u64, history: seq<Seen>) {
    && IssuedAbove(history)
    && (forall x :: x in history ==> x.version <= counter)
    && (counter == 0 || exists x :: x in history && x.version == counter)
  }

  ghost predicate ThreadsInv(counter: u64, threads: seq<Pc>) {
    && Absorbing(counter, threads)
    && (forall p :: p in threads && p.Looping? ==> p.cur <= counter)
  }

  ghost predicate CounterInv(s: Shared) {
    HistoryInv(s.counter, s.history) && ThreadsInv(s.counter, s.threads)
  }

  /** The counter is not used up when a version is handed out. */
  predicate Spared(s: Shared, m: Move) { m.Issue? ==> s.counter < MAX_U64 }

  predicate NeverUsedUp(s: Shared, ms: seq<Move>)
    requires ValidMoves(s, ms)
    decreases |ms|
  {
    ms == [] || (Spared(s, ms[0]) && NeverUsedUp(Next(s, ms[0]), ms[1..]))
  }

  ghost predicate FreshThroughout(s: Shared, ms: seq<Move>)
    requires ValidMoves(s, ms)
    decreases |ms|
  {
    && IssuedAbove(s.history) && Absorbing(s.counter, s.threads)
    && (ms == [] || FreshThroughout(Next(s, ms[0]), ms[1..]))
  }

  lemma {:induction false} HistoryGrows(counter: u64, history: seq<Seen>, x: Seen, counter': u64)
    requires HistoryInv(counter, history) && counter <= counter'
    requires if x.version <= counter then counter' == counter else counter' == x.version
    requires x.Issued? ==> counter < x.version
    ensures HistoryInv(counter', history + [x])
  {
    assert x in history + [x];
    if x.version <= counter && counter != 0 {
      var y :| y in history && y.version == counter;
      assert y in history + [x];
    }
    forall i | 0 <= i < |history|
      ensures history[i].version <= counter
    {
      assert history[i] in history;
    }
  }

  lemma {:induction false} ThreadMoves(counter: u64, threads: seq<Pc>, t: nat, p: Pc, counter': u64)
    requires ThreadsInv(counter, threads) && counter <= counter' && t < |threads|
    requires (p.Looping? ==> p.cur <= counter') && (p.Past? ==> p.version <= counter')
    ensures ThreadsInv(counter', threads[t := p])
  {
    forall q | q in threads[t := p]
      ensures q == p || q in threads
    {
    }
  }

  lemma {:induction false} AdvanceKeepsCounter(s: Shared, t: nat)
    requires Enabled(s, Advance(t)) && CounterInv(s)
    ensures CounterInv(Next(s, Advance(t))) && s.counter <= Next(s, Advance(t)).counter
  {
    var s' := Next(s, Advance(t));
    assert s.threads[t] in s.threads;
    ThreadMoves(s.counter, s.threads, t, s'.threads[t], s'.counter);
    if s'.threads[t].Past? {
      HistoryGrows(s.counter, s.history, Absorbed(s.threads[t].version), s'.counter);
    }
  }

  lemma {:induction false} NextKeepsCounter(s: Shared, m: Move)
    requires Enabled(s, m) && CounterInv(s) && Spared(s, m)
    ensures CounterInv(Next(s, m)) && s.counter <= Next(s, m).counter
  {
    match m
    case Issue => HistoryGrows(s.counter, s.history, Issued(s.counter + 1), s.counter + 1);
    case Enter(version) =>
    case Advance(t) => AdvanceKeepsCounter(s, t);
  }

  /** Handing out a version when the counter is used up reissues 0. */
  lemma {:induction false} UsedUpReissues(s: Shared)
    requires CounterInv(s) && s.counter == MAX_U64
    ensures !IssuedAbove(Next(s, Issue).history)
  {
    var x :| x in s.history && x.version == s.counter;
    var i :| 0 <= i < |s.history| && s.history[i] == x;
    var h := Next(s, Issue).history;
    assert h[i] == x && h[|s.history|] == Issued(0);
  }

  /** Under every interleaving, versions handed out by `put` are pairwise distinct and
      exceed every version whose loop had already finished, and whoever left the loop
      left the counter at its version or above, at every moment, if and only if none is
      handed out when the counter is used up. */
  lemma {:induction false} VersionsAreFresh(s: Shared, ms: seq<Move>)
    requires ValidMoves(s, ms) && CounterInv(s)
    ensures FreshThroughout(s, ms) <==> NeverUsedUp(s, ms)
    decreases |ms|
  {
    if ms == [] {
    } else if Spared(s, ms[0]) {
      NextKeepsCounter(s, ms[0]);
      VersionsAreFresh(Next(s, ms[0]), ms[1..]);
    } else {
      UsedUpReissues(s);
    }
  }

  /** The same from the start, with no thread and no version yet. */
  lemma {:induction false} VersionsAreFreshFromStart(ms: seq<Move>)
    requires ValidMoves(Shared(0, [], []), ms)
    ensures FreshThroughout(Shared(0, [], []), ms) <==> NeverUsedUp(Shared(0, [], []), ms)
  {
    VersionsAreFresh(Shared(0, [], []), ms);
  }

  /** A lost compare-exchange brings the thread strictly closer to the end of its loop,
      whatever raised the counter since it last looked: `version - cur` is a
      termination measure. */
  lemma {:induction false} LostRaceMakesProgress(s: Shared, t: nat)
    requires t < |s.threads| && s.threads[t].Looping? && s.threads[t].cur <= s.counter
    ensures var p, p' := s.threads[t], Next(s, Advance(t)).threads[t];
      || p' == Past(p.version)
      || (p'.Looping? && p'.version == p.version && p.cur < p.version && p.cur < p'.cur)
  {
  }

  /** Steps thread t takes in the run. */
  function StepsOf(ms: seq<Move>, t: nat): nat {
    if ms == [] then 0 else (if ms[0] == Advance(t) then 1 else 0) + StepsOf(ms[1..], t)
  }

  /** Versions handed out in the run when the counter is used up. */
  function Wraps(s: Shared, ms: seq<Move>): nat
    requires ValidMoves(s, ms)
    decreases |ms|
  {
    if ms == [] then 0 else (if Spared(s, ms[0]) then 0 else 1) + Wraps(Next(s, ms[0]), ms[1..])
  }

  /** Steps left to a thread while the counter does not wrap. */
  function StepsLeft(p: Pc, counter: u64): nat {
    match p
    case Loading(version) => version + 2
    case Looping(version, cur) =>
      if cur > counter then WORD + 2 else if version > cur then version - cur + 1 else 1
    case Past(_) => 0
  }

  lemma {:induction false} MoveUsesSteps(s: Shared, m: Move, t: nat)
    requires Enabled(s, m) && t < |s.threads|
    ensures t < |Next(s, m).threads|
    ensures var left, left' := StepsLeft(s.threads[t], s.counter), StepsLeft(Next(s, m).threads[t], Next(s, m).counter);
      && (m == Advance(t) ==> left' < left)
      && (m != Advance(t) && Spared(s, m) ==> left' <= left)
      && (!Spared(s, m) ==> left' <= left + WORD + 2)
  {
  }

  /** The loop ends under any interference: a thread takes at most the gap between its
      version and the value it last saw, plus one step, and another round for each time
      that the counter wraps meanwhile. */
  lemma {:induction false} LoopIsBounded(s: Shared, ms: seq<Move>, t: nat)
    requires ValidMoves(s, ms) && t < |s.threads|
    ensures StepsOf(ms, t) <= StepsLeft(s.threads[t], s.counter) + Wraps(s, ms) * (WORD + 2)
    decreases |ms|
  {
    if ms == [] {
    } else {
      MoveUsesSteps(s, ms[0], t);
      LoopIsBounded(Next(s, ms[0]), ms[1..], t);
    }
  }
}
