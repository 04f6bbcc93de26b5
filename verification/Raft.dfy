/** Raft over an in-memory cluster: elections, log replication and commit.
    A node's identifier is its position in the cluster. */
module Raft {
  import opened Options
  import opened Cardinality

  datatype Role = Follower | Candidate | Leader

  datatype LogEntry = LogEntry(term: nat, command: string)

  datatype Node = Node(
    role: Role, currentTerm: nat, votedFor: Option<nat>,
    log: seq<LogEntry>, commitIndex: nat, alive: bool)

  const FRESH_NODE := Node(Follower, 0, None, [], 0, true)

  // ---------------------------------------------------------------------------
  // One call, as a function of the cluster before it
  // ---------------------------------------------------------------------------

  function Quorum(n: nat): nat { n / 2 + 1 }

  function LastTerm(log: seq<LogEntry>): nat {
    if log == [] then 0 else log[|log| - 1].term
  }

  predicate LogOk(candidate: seq<LogEntry>, voter: seq<LogEntry>) {
    || LastTerm(candidate) > LastTerm(voter)
    || (LastTerm(candidate) == LastTerm(voter) && |candidate| >= |voter|)
  }

  predicate Grants(c: seq<Node>, candidate: nat, voter: nat)
    requires candidate < |c| && voter < |c|
  {
    && voter != candidate
    && c[voter].alive
    && c[candidate].currentTerm + 1 > c[voter].currentTerm
    && LogOk(c[candidate].log, c[voter].log)
  }

  /** The candidate and every node that grants it a vote. */
  function Voters(c: seq<Node>, candidate: nat): set<nat>
    requires candidate < |c|
  {
    set i: nat | i < |c| && (i == candidate || Grants(c, candidate, i))
  }

  /** The voters once the nodes before k have been asked. */
  ghost function VotersBelow(c: seq<Node>, candidate: nat, k: nat): set<nat>
    requires candidate < |c|
  {
    set i: nat | i < |c| && (i == candidate || (i < k && Grants(c, candidate, i)))
  }

  lemma {:induction false} VotersBelowNext(c: seq<Node>, candidate: nat, k: nat)
    requires candidate < |c| && k < |c|
    ensures |VotersBelow(c, candidate, k + 1)|
         == |VotersBelow(c, candidate, k)| + if Grants(c, candidate, k) then 1 else 0
  {
    var before, after := VotersBelow(c, candidate, k), VotersBelow(c, candidate, k + 1);
    assert after == if Grants(c, candidate, k) then before + {k} else before;
  }

  predicate Wins(c: seq<Node>, candidate: nat)
    requires candidate < |c|
  {
    c[candidate].alive && |Voters(c, candidate)| >= Quorum(|c|)
  }

  /** Node i once every live node has answered the candidate's request. */
  function Polled(c: seq<Node>, candidate: nat, i: nat): Node
    requires candidate < |c| && i < |c|
  {
    var newTerm := c[candidate].currentTerm + 1;
    if i == candidate then c[i].(currentTerm := newTerm, role := Candidate, votedFor := Some(candidate))
    else if Grants(c, candidate, i) then
      c[i].(currentTerm := newTerm, votedFor := Some(candidate), role := Follower)
    else c[i]
  }

  function Demoted(n: Node, isLeader: bool): Node {
    if !isLeader && n.alive then n.(role := Follower) else n
  }

  function NodeAfterElection(c: seq<Node>, candidate: nat, i: nat): Node
    requires candidate < |c| && i < |c|
  {
    var n := Polled(c, candidate, i);
    if !c[candidate].alive then c[i]
    else if i == candidate then n.(role := if Wins(c, candidate) then Leader else Follower)
    else if Wins(c, candidate) then Demoted(n, false)
    else n
  }

  function AfterElection(c: seq<Node>, candidate: nat): seq<Node>
    requires candidate < |c|
  {
    seq(|c|, i requires 0 <= i < |c| => NodeAfterElection(c, candidate, i))
  }

  predicate IsLiveLeader(n: Node) { n.role == Leader && n.alive }

  /** The first live leader at position `from` or later. */
  function LeaderFrom(c: seq<Node>, from: nat): (r: Option<nat>)
    requires from <= |c|
    ensures r.Some? ==> from <= r.value < |c| && IsLiveLeader(c[r.value])
    ensures r.Some? ==> forall i :: from <= i < r.value ==> !IsLiveLeader(c[i])
    ensures r.None? ==> forall i :: from <= i < |c| ==> !IsLiveLeader(c[i])
    decreases |c| - from
  {
    if from == |c| then None
    else if IsLiveLeader(c[from]) then Some(from)
    else LeaderFrom(c, from + 1)
  }

  function Alive(c: seq<Node>): set<nat> { set i: nat | i < |c| && c[i].alive }

  predicate Commits(c: seq<Node>) {
    LeaderFrom(c, 0).Some? && |Alive(c)| >= Quorum(|c|)
  }

  function Appended(n: Node, entry: LogEntry): Node {
    if n.alive then n.(log := n.log + [entry]) else n
  }

  function Committed(n: Node, target: nat): Node {
    if n.alive && |n.log| >= target && n.commitIndex < target then n.(commitIndex := target) else n
  }

  function NodeAfterRequest(c: seq<Node>, leader: nat, command: string, i: nat): Node
    requires leader < |c| && i < |c|
  {
    var n := Appended(c[i], LogEntry(c[leader].currentTerm, command));
    if Commits(c) then Committed(n, |c[leader].log| + 1) else n
  }

  function AfterRequest(c: seq<Node>, command: string): seq<Node> {
    match LeaderFrom(c, 0)
    case None => c
    case Some(l) => seq(|c|, i requires 0 <= i < |c| => NodeAfterRequest(c, l, command, i))
  }

  // ---------------------------------------------------------------------------
  // The cluster that the program updates in place
  // ---------------------------------------------------------------------------

  class Cluster {
    const nodes: array<Node>

    constructor (n: nat)
      ensures fresh(nodes)
      ensures nodes[..] == Initial(n).nodes
    {
      nodes := new Node[n](_ => FRESH_NODE);
    }

    method RunElection(candidate: nat) returns (won: bool)
      requires candidate < nodes.Length
      modifies nodes
      ensures nodes[..] == AfterElection(old(nodes[..]), candidate)
      ensures won == Wins(old(nodes[..]), candidate)
    {
      if !nodes[candidate].alive {
        return false;
      }
      var votes := RequestVotes(candidate);
      won := votes >= Quorum(nodes.Length);
      if won {
        nodes[candidate] := nodes[candidate].(role := Leader);
        StepDown(candidate);
      } else {
        nodes[candidate] := nodes[candidate].(role := Follower);
      }
    }

    /** The candidate moves to the next term, votes for itself and polls the others. */
    method RequestVotes(candidate: nat) returns (votes: nat)
      requires candidate < nodes.Length
      modifies nodes
      ensures forall i :: 0 <= i < nodes.Length ==> nodes[i] == Polled(old(nodes[..]), candidate, i)
      ensures votes == |Voters(old(nodes[..]), candidate)|
    {
      ghost var c := nodes[..];
      var newTerm := nodes[candidate].currentTerm + 1;
      var log := nodes[candidate].log;
      nodes[candidate] := nodes[candidate].(
        currentTerm := newTerm, role := Candidate, votedFor := Some(candidate));
      votes := 1;
      assert VotersBelow(c, candidate, 0) == {candidate};
      for voter := 0 to nodes.Length
        invariant nodes[candidate] == Polled(c, candidate, candidate)
        invariant forall i :: 0 <= i < voter ==> nodes[i] == Polled(c, candidate, i)
        invariant forall i :: voter <= i < nodes.Length && i != candidate ==> nodes[i] == c[i]
        invariant votes == |VotersBelow(c, candidate, voter)|
      {
        VotersBelowNext(c, candidate, voter);
        if voter != candidate && nodes[voter].alive
           && newTerm > nodes[voter].currentTerm && LogOk(log, nodes[voter].log) {
          nodes[voter] := nodes[voter].(currentTerm := newTerm, votedFor := Some(candidate), role := Follower);
          votes := votes + 1;
        }
      }
      assert VotersBelow(c, candidate, |c|) == Voters(c, candidate);
    }

    /** Every live node other than the new leader becomes its follower. */
    method StepDown(leader: nat)
      modifies nodes
      ensures forall i :: 0 <= i < nodes.Length ==> nodes[i] == Demoted(old(nodes[i]), i == leader)
    {
      for i := 0 to nodes.Length
        invariant forall k :: 0 <= k < i ==> nodes[k] == Demoted(old(nodes[k]), k == leader)
        invariant forall k :: i <= k < nodes.Length ==> nodes[k] == old(nodes[k])
      {
        if i != leader && nodes[i].alive {
          nodes[i] := nodes[i].(role := Follower);
        }
      }
    }

    method FindLeader() returns (r: Option<nat>)
      ensures r == LeaderFrom(nodes[..], 0)
    {
      for i := 0 to nodes.Length
        invariant LeaderFrom(nodes[..], 0) == LeaderFrom(nodes[..], i)
      {
        if nodes[i].role == Leader && nodes[i].alive {
          return Some(i);
        }
      }
      return None;
    }

    method ClientRequest(command: string) returns (committed: bool)
      modifies nodes
      ensures nodes[..] == AfterRequest(old(nodes[..]), command)
      ensures committed == Commits(old(nodes[..]))
    {
      var found := FindLeader();
      if found.None? {
        return false;
      }
      var leader := found.value;
      var target := |nodes[leader].log| + 1;
      var replicated := AppendEntries(leader, LogEntry(nodes[leader].currentTerm, command));
      committed := replicated >= Quorum(nodes.Length);
      if committed {
        AdvanceCommit(target);
      }
    }

    /** The leader appends the entry and pushes it to every live follower. */
    method AppendEntries(leader: nat, entry: LogEntry) returns (replicated: nat)
      requires leader < nodes.Length && nodes[leader].alive
      modifies nodes
      ensures forall i :: 0 <= i < nodes.Length ==> nodes[i] == Appended(old(nodes[i]), entry)
      ensures replicated == |Alive(old(nodes[..]))|
    {
      ghost var c := nodes[..];
      nodes[leader] := nodes[leader].(log := nodes[leader].log + [entry]);
      replicated := 1;
      ghost var holders: set<nat> := {leader};
      for i := 0 to nodes.Length
        invariant nodes[leader] == Appended(c[leader], entry)
        invariant forall k :: 0 <= k < i ==> nodes[k] == Appended(c[k], entry)
        invariant forall k :: i <= k < nodes.Length && k != leader ==> nodes[k] == c[k]
        invariant forall k: nat :: k in holders <==> k < |c| && (k == leader || (k < i && c[k].alive))
        invariant replicated == |holders|
      {
        if i != leader && nodes[i].alive {
          nodes[i] := nodes[i].(log := nodes[i].log + [entry]);
          replicated := replicated + 1;
          holders := holders + {i};
        }
      }
      assert holders == Alive(c);
    }

    method AdvanceCommit(target: nat)
      modifies nodes
      ensures forall i :: 0 <= i < nodes.Length ==> nodes[i] == Committed(old(nodes[i]), target)
    {
      for i := 0 to nodes.Length
        invariant forall k :: 0 <= k < i ==> nodes[k] == Committed(old(nodes[k]), target)
        invariant forall k :: i <= k < nodes.Length ==> nodes[k] == old(nodes[k])
      {
        if nodes[i].alive && |nodes[i].log| >= target {
          nodes[i] := nodes[i].(commitIndex := Max(nodes[i].commitIndex, target));
        }
      }
    }
  }

  function Max(a: nat, b: nat): nat { if a < b then b else a }

  // ---------------------------------------------------------------------------
  // Who votes for whom
  // ---------------------------------------------------------------------------

  /** A quorum is the least number that no two disjoint sets of nodes both reach. */
  lemma {:induction false} QuorumIsStrictMajority(n: nat, q: nat)
    ensures q >= Quorum(n) <==> q + q > n
  {
  }

  /** The comparison of logs on their last entries: later term first, then length. */
  lemma {:induction false} LogOkExactly(mine: seq<LogEntry>, theirs: seq<LogEntry>)
    ensures LogOk(mine, theirs) <==>
      || theirs == []
      || (mine != []
          && (mine[|mine| - 1].term > theirs[|theirs| - 1].term
              || (mine[|mine| - 1].term == theirs[|theirs| - 1].term && |mine| >= |theirs|)))
  {
  }

  /** The election restriction: another node votes for the candidate if and only if it
      is live, has not passed the candidate's term, and its log has an earlier last
      term, or the same one and no greater length. */
  lemma {:induction false} VotersExactly(c: seq<Node>, k: nat, i: nat)
    requires k < |c| && i < |c| && i != k
    ensures i in Voters(c, k) <==>
      && c[i].alive && c[i].currentTerm <= c[k].currentTerm
      && var mine, theirs := c[k].log, c[i].log;
      (|| theirs == []
       || (mine != []
           && (mine[|mine| - 1].term > theirs[|theirs| - 1].term
               || (mine[|mine| - 1].term == theirs[|theirs| - 1].term && |mine| >= |theirs|))))
  {
    LogOkExactly(c[k].log, c[i].log);
  }

  /** A log that is missing entries of another with sorted terms is refused by it. */
  lemma {:induction false} PrefixIsRefused(mine: seq<LogEntry>, theirs: seq<LogEntry>)
    requires mine < theirs && forall i, j :: 0 <= i < j < |theirs| ==> theirs[i].term <= theirs[j].term
    ensures !LogOk(mine, theirs)
  {
    if mine != [] {
      assert mine[|mine| - 1] == theirs[|mine| - 1];
    }
  }

  /** A candidate that is missing entries which all but less than a quorum hold loses. */
  lemma {:induction false} StaleCandidateLoses(c: seq<Node>, k: nat, holders: set<nat>)
    requires k < |c| && |c| - |holders| < Quorum(|c|)
    requires forall i :: i in holders ==>
      && i < |c| && c[k].log < c[i].log
      && forall a, b :: 0 <= a < b < |c[i].log| ==> c[i].log[a].term <= c[i].log[b].term
    ensures !Wins(c, k)
  {
    forall i | i in Voters(c, k)
      ensures i !in holders
    {
      if i in holders {
        PrefixIsRefused(c[k].log, c[i].log);
      }
    }
    assert |Voters(c, k) + holders| == |Voters(c, k)| + |holders|;
    BelowSize(Voters(c, k) + holders, |c|);
  }

  /** An election changes terms and votes of exactly those who vote, and nothing else but roles. */
  lemma {:induction false} ElectionRecordsVotes(c: seq<Node>, k: nat, i: nat)
    requires k < |c| && i < |c| && c[k].alive
    ensures var n, n' := c[i], AfterElection(c, k)[i];
      && n'.log == n.log && n'.commitIndex == n.commitIndex && n'.alive == n.alive
      && (if i in Voters(c, k) then n'.currentTerm == c[k].currentTerm + 1 && n'.votedFor == Some(k)
          else n'.currentTerm == n.currentTerm && n'.votedFor == n.votedFor)
      && (n'.role == Leader <==> (i == k && Wins(c, k)) || (n.role == Leader && i !in Voters(c, k)
                                                            && !(n.alive && Wins(c, k))))
  {
    assert AfterElection(c, k)[i] == NodeAfterElection(c, k, i);
  }

  // ---------------------------------------------------------------------------
  // Runs: elections, client requests, crashes and revivals in any order
  // ---------------------------------------------------------------------------

  datatype Event = Election(candidate: nat) | Request(command: string) | Crash(node: nat) | Revive(node: nat)

  datatype Win = Win(term: nat, leader: nat)

  /** The cluster together with the elections won so far, oldest first. */
  datatype World = World(nodes: seq<Node>, won: seq<Win>)

  predicate ValidEvent(e: Event, n: nat) {
    match e
    case Election(i) => i < n
    case Request(_) => true
    case Crash(i) => i < n
    case Revive(i) => i < n
  }

  predicate ValidEvents(es: seq<Event>, n: nat) {
    forall e :: e in es ==> ValidEvent(e, n)
  }

  function Initial(n: nat): World { World(seq(n, _ => FRESH_NODE), []) }

  function Step(w: World, e: Event): (r: World)
    requires ValidEvent(e, |w.nodes|)
    ensures |r.nodes| == |w.nodes|
  {
    var c := w.nodes;
    match e
    case Election(i) =>
      World(AfterElection(c, i),
            if Wins(c, i) then w.won + [Win(c[i].currentTerm + 1, i)] else w.won)
    case Request(command) => w.(nodes := AfterRequest(c, command))
    case Crash(i) => w.(nodes := c[i := c[i].(alive := false)])
    case Revive(i) => w.(nodes := c[i := c[i].(alive := true)])
  }

  function Run(w: World, es: seq<Event>): (r: World)
    requires ValidEvents(es, |w.nodes|)
    ensures |r.nodes| == |w.nodes|
    decreases |es|
  {
    if es == [] then w else Run(Step(w, es[0]), es[1..])
  }

  // ---------------------------------------------------------------------------
  // Election safety
  // ---------------------------------------------------------------------------

  function AtLeast(c: seq<Node>, term: nat): set<nat> {
    set i: nat | i < |c| && c[i].currentTerm >= term
  }

  ghost predicate TermsIncrease(won: seq<Win>) {
    forall i, j :: 0 <= i < j < |won| ==> won[i].term < won[j].term
  }

  ghost predicate QuorumBehind(c: seq<Node>, term: nat) {
    |AtLeast(c, term)| >= Quorum(|c|)
  }

  ghost predicate SafeInv(w: World) {
    && TermsIncrease(w.won)
    && (forall k :: 0 <= k < |w.won| ==> QuorumBehind(w.nodes, w.won[k].term))
    && (forall i :: 0 <= i < |w.nodes| && w.nodes[i].role == Leader ==> Win(w.nodes[i].currentTerm, i) in w.won)
  }

  lemma {:induction false} TermsNeverDecrease(w: World, e: Event)
    requires ValidEvent(e, |w.nodes|)
    ensures forall i :: 0 <= i < |w.nodes| ==> w.nodes[i].currentTerm <= Step(w, e).nodes[i].currentTerm
  {
  }

  /** A quorum that has reached a term keeps standing behind it. */
  lemma {:induction false} QuorumStaysBehind(w: World, e: Event, term: nat)
    requires ValidEvent(e, |w.nodes|) && QuorumBehind(w.nodes, term)
    ensures QuorumBehind(Step(w, e).nodes, term)
  {
    TermsNeverDecrease(w, e);
    assert AtLeast(w.nodes, term) <= AtLeast(Step(w, e).nodes, term);
    SubsetSize(AtLeast(w.nodes, term), AtLeast(Step(w, e).nodes, term));
  }

  /** Two majorities share a member: a won term exceeds every term a quorum already reached. */
  lemma {:induction false} WonTermIsNew(c: seq<Node>, candidate: nat, term: nat)
    requires candidate < |c| && Wins(c, candidate) && QuorumBehind(c, term)
    ensures term < c[candidate].currentTerm + 1
  {
    var i := CommonMember(Voters(c, candidate), AtLeast(c, term), |c|);
  }

  lemma {:induction false} WinnerHasQuorumBehind(c: seq<Node>, candidate: nat)
    requires candidate < |c| && Wins(c, candidate)
    ensures QuorumBehind(AfterElection(c, candidate), c[candidate].currentTerm + 1)
  {
    var after := AtLeast(AfterElection(c, candidate), c[candidate].currentTerm + 1);
    assert Voters(c, candidate) <= after;
    SubsetSize(Voters(c, candidate), after);
  }

  lemma {:induction false} LeadersStayWinners(w: World, e: Event)
    requires ValidEvent(e, |w.nodes|) && SafeInv(w)
    ensures var w' := Step(w, e);
      forall i :: 0 <= i < |w'.nodes| && w'.nodes[i].role == Leader ==> Win(w'.nodes[i].currentTerm, i) in w'.won
  {
    var w' := Step(w, e);
    forall i | 0 <= i < |w'.nodes| && w'.nodes[i].role == Leader
      ensures Win(w'.nodes[i].currentTerm, i) in w'.won
    {
      if e.Election? && Wins(w.nodes, e.candidate) && i == e.candidate {
        assert w'.won[|w.won|] == Win(w.nodes[i].currentTerm + 1, i);
      } else {
        assert w.nodes[i].role == Leader && w.nodes[i].currentTerm == w'.nodes[i].currentTerm;
      }
    }
  }

  lemma {:induction false} WonTermsIncrease(w: World, e: Event)
    requires ValidEvent(e, |w.nodes|) && SafeInv(w)
    ensures TermsIncrease(Step(w, e).won)
  {
    if e.Election? && Wins(w.nodes, e.candidate) {
      forall k | 0 <= k < |w.won|
        ensures w.won[k].term < w.nodes[e.candidate].currentTerm + 1
      {
        WonTermIsNew(w.nodes, e.candidate, w.won[k].term);
      }
    }
  }

  lemma {:induction false} WonTermsStayBacked(w: World, e: Event)
    requires ValidEvent(e, |w.nodes|) && SafeInv(w)
    ensures var w' := Step(w, e);
      forall k :: 0 <= k < |w'.won| ==> QuorumBehind(w'.nodes, w'.won[k].term)
  {
    var w' := Step(w, e);
    forall k | 0 <= k < |w'.won|
      ensures QuorumBehind(w'.nodes, w'.won[k].term)
    {
      if k < |w.won| {
        QuorumStaysBehind(w, e, w.won[k].term);
      } else {
        WinnerHasQuorumBehind(w.nodes, e.candidate);
      }
    }
  }

  lemma {:induction false} StepKeepsSafe(w: World, e: Event)
    requires ValidEvent(e, |w.nodes|) && SafeInv(w)
    ensures SafeInv(Step(w, e))
  {
    WonTermsIncrease(w, e);
    WonTermsStayBacked(w, e);
    LeadersStayWinners(w, e);
  }

  lemma {:induction false} RunKeepsSafe(w: World, es: seq<Event>)
    requires ValidEvents(es, |w.nodes|) && SafeInv(w)
    ensures SafeInv(Run(w, es))
    decreases |es|
  {
    if es == [] {
    } else {
      StepKeepsSafe(w, es[0]);
      RunKeepsSafe(Step(w, es[0]), es[1..]);
    }
  }

  lemma {:induction false} OneLeaderPerTerm(w: World, a: nat, b: nat)
    requires SafeInv(w) && a < |w.nodes| && b < |w.nodes| && a != b
    requires w.nodes[a].role == Leader && w.nodes[b].role == Leader
    ensures w.nodes[a].currentTerm != w.nodes[b].currentTerm
  {
    var i :| 0 <= i < |w.won| && w.won[i] == Win(w.nodes[a].currentTerm, a);
    var j :| 0 <= j < |w.won| && w.won[j] == Win(w.nodes[b].currentTerm, b);
  }

  /** Election safety: in every run the won terms strictly increase, and two
      nodes in role Leader, live or not, never share a term. */
  lemma {:induction false} ElectionSafety(n: nat, es: seq<Event>)
    requires ValidEvents(es, n)
    ensures var w := Run(Initial(n), es);
      && TermsIncrease(w.won)
      && forall a, b :: 0 <= a < b < n && w.nodes[a].role == Leader && w.nodes[b].role == Leader
           ==> w.nodes[a].currentTerm != w.nodes[b].currentTerm
  {
    RunKeepsSafe(Initial(n), es);
    var w := Run(Initial(n), es);
    forall a, b | 0 <= a < b < n && w.nodes[a].role == Leader && w.nodes[b].role == Leader
      ensures w.nodes[a].currentTerm != w.nodes[b].currentTerm
    {
      OneLeaderPerTerm(w, a, b);
    }
  }

  lemma {:induction false} VotesStand(w: World, e: Event, i: nat)
    requires ValidEvent(e, |w.nodes|) && i < |w.nodes|
    ensures var n, n' := w.nodes[i], Step(w, e).nodes[i];
      && n.currentTerm <= n'.currentTerm
      && (n.currentTerm == n'.currentTerm ==> n'.votedFor == n.votedFor)
      && (n.role != Candidate ==> n'.role != Candidate)
  {
    if e.Election? && w.nodes[e.candidate].alive {
      ElectionRecordsVotes(w.nodes, e.candidate, i);
    }
  }

  /** In every run a node votes once a term: its vote stays until its term moves on. And
      between elections nobody is a candidate. */
  lemma {:induction false} OneVotePerTerm(w: World, es: seq<Event>, i: nat)
    requires ValidEvents(es, |w.nodes|) && i < |w.nodes|
    ensures var n, n' := w.nodes[i], Run(w, es).nodes[i];
      && n.currentTerm <= n'.currentTerm
      && (n.currentTerm == n'.currentTerm ==> n'.votedFor == n.votedFor)
      && (n.role != Candidate ==> n'.role != Candidate)
    decreases |es|
  {
    if es == [] {
    } else {
      VotesStand(w, es[0], i);
      OneVotePerTerm(Step(w, es[0]), es[1..], i);
    }
  }

  // ---------------------------------------------------------------------------
  // Log agreement
  // ---------------------------------------------------------------------------

  function LastWonTerm(won: seq<Win>): nat {
    if won == [] then 0 else won[|won| - 1].term
  }

  /** Node i may come back: no log is longer than its own, and if it still
      believes it leads, no leader is live. */
  predicate MayReturn(c: seq<Node>, i: nat)
    requires i < |c|
  {
    || c[i].alive
    || (&& (forall j :: 0 <= j < |c| ==> |c[j].log| <= |c[i].log|)
        && (c[i].role == Leader ==> LeaderFrom(c, 0).None?))
  }

  predicate CleanEvent(c: seq<Node>, e: Event)
    requires ValidEvent(e, |c|)
  {
    e.Revive? ==> MayReturn(c, e.node)
  }

  predicate CleanRun(w: World, es: seq<Event>)
    requires ValidEvents(es, |w.nodes|)
    decreases |es|
  {
    es == [] || (CleanEvent(w.nodes, es[0]) && CleanRun(Step(w, es[0]), es[1..]))
  }

  function Holders(c: seq<Node>, index: nat): set<nat> {
    set i: nat | i < |c| && |c[i].log| >= index
  }

  ghost predicate LogTermsSorted(log: seq<LogEntry>) {
    forall i, j :: 0 <= i < j < |log| ==> log[i].term <= log[j].term
  }

  /** `log` is the log of every live node; every other log is a prefix of it. */
  ghost predicate LogsAgree(c: seq<Node>, log: seq<LogEntry>) {
    forall i :: 0 <= i < |c| ==> c[i].log <= log && (c[i].alive ==> c[i].log == log)
  }

  ghost predicate SomeoneHas(c: seq<Node>, log: seq<LogEntry>) {
    log == [] || exists i :: 0 <= i < |c| && c[i].log == log
  }

  ghost predicate CommitsHeld(c: seq<Node>) {
    forall i :: 0 <= i < |c| ==>
      && c[i].commitIndex <= |c[i].log|
      && (c[i].commitIndex > 0 ==> |Holders(c, c[i].commitIndex)| >= Quorum(|c|))
  }

  ghost predicate OneLiveLeader(c: seq<Node>) {
    forall a, b :: 0 <= a < b < |c| ==> !(IsLiveLeader(c[a]) && IsLiveLeader(c[b]))
  }

  /** Any two nodes agree on what both have committed. */
  ghost predicate CommitsAgree(c: seq<Node>) {
    forall i, j, k :: 0 <= i < |c| && 0 <= j < |c| && 0 <= k < c[i].commitIndex && k < c[j].commitIndex ==>
      k < |c[i].log| && k < |c[j].log| && c[i].log[k] == c[j].log[k]
  }

  /** What the replicated log is for, in one state: all live nodes hold `log`, every
      other log is a prefix of it, its terms never decrease, at most one leader is
      live, every committed index is held by a quorum, and commits agree. */
  ghost predicate Agreed(c: seq<Node>, log: seq<LogEntry>) {
    && LogsAgree(c, log) && LogTermsSorted(log) && OneLiveLeader(c)
    && CommitsHeld(c) && CommitsAgree(c)
  }

  /** A node in role leader that holds the whole log, live or not, has reached its last term. */
  ghost predicate LeadersCaughtUp(c: seq<Node>, log: seq<LogEntry>) {
    forall i :: 0 <= i < |c| && c[i].role == Leader && c[i].log == log ==> LastTerm(log) <= c[i].currentTerm
  }

  ghost predicate AgreementInv(w: World, log: seq<LogEntry>) {
    && SafeInv(w)
    && Agreed(w.nodes, log)
    && SomeoneHas(w.nodes, log)
    && (forall e :: e in log ==> e.term <= LastWonTerm(w.won))
    && LeadersCaughtUp(w.nodes, log)
  }

  function LogAfter(w: World, e: Event, log: seq<LogEntry>): (r: seq<LogEntry>)
    ensures log <= r
  {
    match e
    case Request(command) =>
      (match LeaderFrom(w.nodes, 0)
       case None => log
       case Some(l) => log + [LogEntry(w.nodes[l].currentTerm, command)])
    case _ => log
  }

  lemma {:induction false} HoldersGrow(c: seq<Node>, c': seq<Node>, index: nat)
    requires |c| == |c'| && forall i :: 0 <= i < |c| ==> |c[i].log| <= |c'[i].log|
    ensures |Holders(c, index)| <= |Holders(c', index)|
  {
    assert Holders(c, index) <= Holders(c', index);
    SubsetSize(Holders(c, index), Holders(c', index));
  }

  /** Every event but a request leaves all logs as they are. */
  lemma {:induction false} OnlyRequestsAppend(w: World, e: Event)
    requires ValidEvent(e, |w.nodes|) && !e.Request?
    ensures forall i :: 0 <= i < |w.nodes| ==>
      var n, n' := w.nodes[i], Step(w, e).nodes[i];
      n'.log == n.log && n'.commitIndex == n.commitIndex && (n'.alive && !n.alive ==> e == Revive(i))
  {
  }

  lemma {:induction false} RequestKeepsCommits(c: seq<Node>, command: string, log: seq<LogEntry>)
    requires LogsAgree(c, log) && CommitsHeld(c)
    ensures CommitsHeld(AfterRequest(c, command))
  {
    var c' := AfterRequest(c, command);
    forall i | 0 <= i < |c|
      ensures c'[i].commitIndex <= |c'[i].log|
      ensures c'[i].commitIndex > 0 ==> |Holders(c', c'[i].commitIndex)| >= Quorum(|c|)
    {
      if c'[i].commitIndex == c[i].commitIndex {
        HoldersGrow(c, c', c[i].commitIndex);
      } else {
        assert Alive(c) <= Holders(c', c'[i].commitIndex);
        SubsetSize(Alive(c), Holders(c', c'[i].commitIndex));
      }
    }
  }

  lemma {:induction false} StepKeepsCommits(w: World, e: Event, log: seq<LogEntry>)
    requires ValidEvent(e, |w.nodes|)
    requires LogsAgree(w.nodes, log) && CommitsHeld(w.nodes)
    ensures CommitsHeld(Step(w, e).nodes)
  {
    if e.Request? {
      RequestKeepsCommits(w.nodes, e.command, log);
    } else {
      OnlyRequestsAppend(w, e);
      var c' := Step(w, e).nodes;
      forall i | 0 <= i < |c'| && c'[i].commitIndex > 0
        ensures |Holders(c', c'[i].commitIndex)| >= Quorum(|c'|)
      {
        HoldersGrow(w.nodes, c', c'[i].commitIndex);
      }
    }
  }

  lemma {:induction false} AgreeingCommitsAgree(c: seq<Node>, log: seq<LogEntry>)
    requires LogsAgree(c, log) && CommitsHeld(c)
    ensures CommitsAgree(c)
  {
    forall i, k | 0 <= i < |c| && 0 <= k < c[i].commitIndex
      ensures k < |c[i].log| && c[i].log[k] == log[k]
    {
    }
  }

  /** Whoever is in role leader won a term no later than the last one won. */
  lemma {:induction false} LeaderTermWasWon(w: World, i: nat)
    requires SafeInv(w) && i < |w.nodes| && w.nodes[i].role == Leader
    ensures w.nodes[i].currentTerm <= LastWonTerm(w.won)
  {
    var k :| 0 <= k < |w.won| && w.won[k] == Win(w.nodes[i].currentTerm, i);
  }

  lemma {:induction false} AppendSorted(log: seq<LogEntry>, entry: LogEntry)
    requires LogTermsSorted(log) && LastTerm(log) <= entry.term
    ensures LogTermsSorted(log + [entry])
  {
  }

  lemma {:induction false} RequestKeepsLogs(w: World, command: string, log: seq<LogEntry>)
    requires AgreementInv(w, log)
    ensures var c, log' := AfterRequest(w.nodes, command), LogAfter(w, Request(command), log);
      && LogsAgree(c, log') && SomeoneHas(c, log') && LogTermsSorted(log') && LeadersCaughtUp(c, log')
      && forall x :: x in log' ==> x.term <= LastWonTerm(w.won)
  {
    var c := AfterRequest(w.nodes, command);
    var leader := LeaderFrom(w.nodes, 0);
    if leader.Some? {
      var l := leader.value;
      var entry := LogEntry(w.nodes[l].currentTerm, command);
      LeaderTermWasWon(w, l);
      AppendSorted(log, entry);
      assert c[l].log == log + [entry];
      forall i | 0 <= i < |c| && c[i].role == Leader && c[i].log == log + [entry]
        ensures i == l
      {
        assert w.nodes[i].alive;
      }
    }
  }

  /** A winner's term is above the last won one, so above every term in the log. */
  lemma {:induction false} WinnerPassesLog(w: World, candidate: nat, log: seq<LogEntry>)
    requires candidate < |w.nodes| && SafeInv(w) && Wins(w.nodes, candidate)
    requires forall e :: e in log ==> e.term <= LastWonTerm(w.won)
    ensures LastTerm(log) <= w.nodes[candidate].currentTerm + 1
  {
    if log != [] {
      assert log[|log| - 1] in log;
    }
    if w.won != [] {
      WonTermIsNew(w.nodes, candidate, LastWonTerm(w.won));
    }
  }

  lemma {:induction false} ElectionKeepsCaughtUp(c: seq<Node>, candidate: nat, log: seq<LogEntry>)
    requires candidate < |c| && LeadersCaughtUp(c, log)
    requires Wins(c, candidate) ==> LastTerm(log) <= c[candidate].currentTerm + 1
    ensures LeadersCaughtUp(AfterElection(c, candidate), log)
  {
    var c' := AfterElection(c, candidate);
    forall i | 0 <= i < |c'| && c'[i].role == Leader && c'[i].log == log
      ensures LastTerm(log) <= c'[i].currentTerm
    {
      assert c'[i] == NodeAfterElection(c, candidate, i);
      assert c'[i] != c[i] ==> i == candidate && Wins(c, candidate);
    }
  }

  lemma {:induction false} OthersKeepCaughtUp(w: World, e: Event, log: seq<LogEntry>)
    requires ValidEvent(e, |w.nodes|) && AgreementInv(w, log) && !e.Request?
    ensures LeadersCaughtUp(Step(w, e).nodes, log)
  {
    if e.Election? {
      if Wins(w.nodes, e.candidate) {
        WinnerPassesLog(w, e.candidate, log);
      }
      ElectionKeepsCaughtUp(w.nodes, e.candidate, log);
    }
  }

  lemma {:induction false} OthersKeepLogs(w: World, e: Event, log: seq<LogEntry>)
    requires ValidEvent(e, |w.nodes|) && CleanEvent(w.nodes, e) && !e.Request?
    requires LogsAgree(w.nodes, log) && SomeoneHas(w.nodes, log)
    ensures LogsAgree(Step(w, e).nodes, log) && SomeoneHas(Step(w, e).nodes, log)
  {
    OnlyRequestsAppend(w, e);
    if log != [] {
      var i :| 0 <= i < |w.nodes| && w.nodes[i].log == log;
      assert Step(w, e).nodes[i].log == log;
    }
  }

  lemma {:induction false} StepKeepsLogs(w: World, e: Event, log: seq<LogEntry>)
    requires ValidEvent(e, |w.nodes|) && CleanEvent(w.nodes, e) && AgreementInv(w, log)
    ensures var c, log' := Step(w, e).nodes, LogAfter(w, e, log);
      && LogsAgree(c, log') && SomeoneHas(c, log') && LogTermsSorted(log') && LeadersCaughtUp(c, log')
      && forall x :: x in log' ==> x.term <= LastWonTerm(w.won)
  {
    if e.Request? {
      RequestKeepsLogs(w, e.command, log);
    } else {
      OthersKeepLogs(w, e, log);
      OthersKeepCaughtUp(w, e, log);
    }
  }

  lemma {:induction false} StepKeepsOneLeader(w: World, e: Event)
    requires ValidEvent(e, |w.nodes|) && CleanEvent(w.nodes, e)
    requires SafeInv(w) && OneLiveLeader(w.nodes)
    ensures OneLiveLeader(Step(w, e).nodes)
    ensures LastWonTerm(w.won) <= LastWonTerm(Step(w, e).won)
  {
    if e.Election? && Wins(w.nodes, e.candidate) && w.won != [] {
      WonTermIsNew(w.nodes, e.candidate, LastWonTerm(w.won));
    }
  }

  lemma {:induction false} StepKeepsAgreement(w: World, e: Event, log: seq<LogEntry>)
    requires ValidEvent(e, |w.nodes|) && CleanEvent(w.nodes, e) && AgreementInv(w, log)
    ensures AgreementInv(Step(w, e), LogAfter(w, e, log))
  {
    StepKeepsSafe(w, e);
    StepKeepsLogs(w, e, log);
    StepKeepsCommits(w, e, log);
    StepKeepsOneLeader(w, e);
    AgreeingCommitsAgree(Step(w, e).nodes, LogAfter(w, e, log));
  }

  lemma {:induction false} RevivedNodeBringsTheLog(c: seq<Node>, i: nat, log: seq<LogEntry>)
    requires i < |c| && !c[i].alive && LogsAgree(c, log)
    requires forall j :: 0 <= j < |c| ==> |c[j].log| <= |c[i].log|
    ensures LogsAgree(c[i := c[i].(alive := true)], c[i].log)
  {
  }

  lemma {:induction false} RevivalKeepsHolders(c: seq<Node>, i: nat)
    requires i < |c| && CommitsHeld(c)
    ensures CommitsHeld(c[i := c[i].(alive := true)])
  {
    var c' := c[i := c[i].(alive := true)];
    forall j | 0 <= j < |c|
      ensures c'[j].commitIndex == c[j].commitIndex && |c'[j].log| == |c[j].log|
      ensures Holders(c', c[j].commitIndex) == Holders(c, c[j].commitIndex)
    {
    }
  }

  /** The condition on revivals is exact, in every state in which the nodes agree:
      they agree after the revival if and only if the node may return. */
  lemma {:induction false} RevivalIsSafeIff(w: World, i: nat, log: seq<LogEntry>)
    requires i < |w.nodes| && Agreed(w.nodes, log)
    ensures MayReturn(w.nodes, i) <==> exists log' :: Agreed(Step(w, Revive(i)).nodes, log')
  {
    var c, c' := w.nodes, Step(w, Revive(i)).nodes;
    if MayReturn(c, i) {
      if c[i].alive {
        assert c' == c;
      } else {
        RevivedNodeBringsTheLog(c, i, log);
        RevivalKeepsHolders(c, i);
        AgreeingCommitsAgree(c', c[i].log);
        assert Agreed(c', c[i].log);
      }
    }
    forall log' | Agreed(c', log')
      ensures MayReturn(c, i)
    {
      assert c'[i].log == log';
      assert forall j :: 0 <= j < |c| ==> c[j].log == c'[j].log;
      if !c[i].alive && c[i].role == Leader {
        forall l | 0 <= l < |c|
          ensures !IsLiveLeader(c[l])
        {
          assert l != i ==> c'[l] == c[l];
        }
      }
    }
  }

  /** The entries of the requests that found a leader, oldest first. */
  function Accepted(w: World, es: seq<Event>): seq<LogEntry>
    requires ValidEvents(es, |w.nodes|)
    decreases |es|
  {
    if es == [] then [] else
    var rest := Accepted(Step(w, es[0]), es[1..]);
    if es[0].Request? && LeaderFrom(w.nodes, 0).Some?
    then [LogEntry(w.nodes[LeaderFrom(w.nodes, 0).value].currentTerm, es[0].command)] + rest
    else rest
  }

  lemma {:induction false} AcceptedNext(w: World, es: seq<Event>, log: seq<LogEntry>)
    requires es != [] && ValidEvents(es, |w.nodes|)
    ensures log + Accepted(w, es) == LogAfter(w, es[0], log) + Accepted(Step(w, es[0]), es[1..])
  {
    if es[0].Request? && LeaderFrom(w.nodes, 0).Some? {
      var entry := LogEntry(w.nodes[LeaderFrom(w.nodes, 0).value].currentTerm, es[0].command);
      assert LogAfter(w, es[0], log) == log + [entry];
    }
  }

  lemma {:induction false} RunKeepsAgreement(w: World, es: seq<Event>, log: seq<LogEntry>)
    returns (log': seq<LogEntry>)
    requires ValidEvents(es, |w.nodes|) && CleanRun(w, es) && AgreementInv(w, log)
    ensures AgreementInv(Run(w, es), log') && log' == log + Accepted(w, es)
    decreases |es|
  {
    if es == [] {
      log' := log;
    } else {
      StepKeepsAgreement(w, es[0], log);
      log' := RunKeepsAgreement(Step(w, es[0]), es[1..], LogAfter(w, es[0], log));
      AcceptedNext(w, es, log);
    }
  }

  lemma {:induction false} InitialAgrees(n: nat)
    ensures AgreementInv(Initial(n), [])
  {
  }

  /** In a clean run the live nodes hold exactly the requests that found a leader, in
      order and each with that leader's term, whether or not they were committed. */
  lemma {:induction false} LogIsAccepted(n: nat, es: seq<Event>, i: nat)
    requires ValidEvents(es, n) && CleanRun(Initial(n), es) && i < n
    ensures var node := Run(Initial(n), es).nodes[i];
      && node.log <= Accepted(Initial(n), es)
      && (node.alive ==> node.log == Accepted(Initial(n), es))
  {
    InitialAgrees(n);
    var log := RunKeepsAgreement(Initial(n), es, []);
    assert log == Accepted(Initial(n), es);
    assert LogsAgree(Run(Initial(n), es).nodes, log);
  }

  /** Where the logs agree, a request that commits leaves every live node with its whole
      log committed. */
  lemma {:induction false} CommitReachesAll(c: seq<Node>, command: string, log: seq<LogEntry>, i: nat)
    requires LogsAgree(c, log) && CommitsHeld(c) && Commits(c) && i < |c| && c[i].alive
    ensures var n := AfterRequest(c, command)[i];
      n.commitIndex == |n.log| == |log| + 1
  {
    assert AfterRequest(c, command)[i] == NodeAfterRequest(c, LeaderFrom(c, 0).value, command, i);
  }

  /** The nodes agree in every state of the run, the first and the last included. */
  ghost predicate AgreesThroughout(w: World, es: seq<Event>)
    requires ValidEvents(es, |w.nodes|)
    decreases |es|
  {
    && (exists log :: Agreed(w.nodes, log))
    && (es == [] || AgreesThroughout(Step(w, es[0]), es[1..]))
  }

  lemma {:induction false} CleanRunsAgree(w: World, es: seq<Event>, log: seq<LogEntry>)
    requires ValidEvents(es, |w.nodes|) && CleanRun(w, es) && AgreementInv(w, log)
    ensures AgreesThroughout(w, es)
    decreases |es|
  {
    if es == [] {
      assert Agreed(w.nodes, log);
    } else {
      assert Agreed(w.nodes, log);
      StepKeepsAgreement(w, es[0], log);
      CleanRunsAgree(Step(w, es[0]), es[1..], LogAfter(w, es[0], log));
    }
  }

  lemma {:induction false} AgreeingRunsAreClean(w: World, es: seq<Event>)
    requires ValidEvents(es, |w.nodes|) && AgreesThroughout(w, es)
    ensures CleanRun(w, es)
    decreases |es|
  {
    if es == [] {
    } else {
      AgreeingRunsAreClean(Step(w, es[0]), es[1..]);
      if es[0].Revive? {
        var log :| Agreed(w.nodes, log);
        RevivalIsSafeIff(w, es[0].node, log);
      }
    }
  }

  /** Log agreement, exactly: the nodes agree in every state of a run if and only if
      each node that revives in it may return. */
  lemma {:induction false} LogAgreement(n: nat, es: seq<Event>)
    requires ValidEvents(es, n)
    ensures AgreesThroughout(Initial(n), es) <==> CleanRun(Initial(n), es)
  {
    if CleanRun(Initial(n), es) {
      CleanRunsAgree(Initial(n), es, []);
    }
    if AgreesThroughout(Initial(n), es) {
      AgreeingRunsAreClean(Initial(n), es);
    }
  }

  /** A fail-stop run, in which no node revives at all, is clean. */
  lemma {:induction false} FailStopIsClean(w: World, es: seq<Event>)
    requires ValidEvents(es, |w.nodes|) && forall e :: e in es ==> !e.Revive?
    ensures CleanRun(w, es)
    decreases |es|
  {
    if es == [] {
    } else {
      FailStopIsClean(Step(w, es[0]), es[1..]);
    }
  }

  // ---------------------------------------------------------------------------
  // Committed entries
  // ---------------------------------------------------------------------------

  /** What any node has committed is a prefix of the log of every live node. */
  ghost predicate Durable(c: seq<Node>) {
    && (forall i :: 0 <= i < |c| ==> c[i].commitIndex <= |c[i].log|)
    && (forall i, j :: 0 <= i < |c| && 0 <= j < |c| && c[j].alive ==> CommittedLog(c[i]) <= c[j].log)
  }

  function CommittedLog(n: Node): seq<LogEntry> {
    if n.commitIndex <= |n.log| then n.log[..n.commitIndex] else n.log
  }

  /** The new entry would come right after the leader's log in n, or is there already. */
  predicate TakesEntry(n: Node, log: seq<LogEntry>, entry: LogEntry) {
    n.log == log || log + [entry] <= n.log
  }

  /** The guard of each event, on the nodes before it: a node revives only with a log
      that extends every committed one, and a request commits only if each live node
      takes the entry where the leader does. */
  predicate Keeps(c: seq<Node>, e: Event)
    requires ValidEvent(e, |c|)
  {
    match e
    case Revive(i) => forall j :: 0 <= j < |c| ==> CommittedLog(c[j]) <= c[i].log
    case Request(command) =>
      Commits(c) ==>
        var l := c[LeaderFrom(c, 0).value];
        forall j :: 0 <= j < |c| && c[j].alive ==> TakesEntry(c[j], l.log, LogEntry(l.currentTerm, command))
    case _ => true
  }

  lemma {:induction false} CommittedLogsKept(c: seq<Node>, c': seq<Node>)
    requires |c| == |c'| && Durable(c)
    requires forall i :: 0 <= i < |c| ==> c'[i].log == c[i].log && c'[i].commitIndex == c[i].commitIndex
    requires forall i :: 0 <= i < |c| && c'[i].alive ==> c[i].alive
    ensures Durable(c')
  {
    forall i | 0 <= i < |c|
      ensures CommittedLog(c'[i]) == CommittedLog(c[i])
    {
    }
  }

  lemma {:induction false} RevivalDurableIff(c: seq<Node>, i: nat)
    requires i < |c| && Durable(c)
    ensures Durable(c[i := c[i].(alive := true)]) <==> Keeps(c, Revive(i))
  {
    var c' := c[i := c[i].(alive := true)];
    forall j | 0 <= j < |c|
      ensures CommittedLog(c'[j]) == CommittedLog(c[j]) && c'[j].log == c[j].log
    {
    }
    assert c'[i].alive;
  }

  lemma {:induction false} PrefixOfAppended(s: seq<LogEntry>, entry: LogEntry, n: seq<LogEntry>)
    ensures s <= n ==> s <= n + [entry]
    ensures s + [entry] <= n + [entry] <==> n == s || s + [entry] <= n
  {
    if s + [entry] <= n + [entry] {
      assert (n + [entry])[..|s|] == s;
      if |n| == |s| {
        assert n == s;
      } else {
        assert n[..|s| + 1] == (n + [entry])[..|s| + 1];
      }
    }
  }

  /** A node's committed log after the request, given how long it was before. */
  lemma {:induction false} CommittedAfterRequest(c: seq<Node>, command: string, i: nat)
    requires i < |c| && Commits(c) && c[i].commitIndex <= |c[i].log|
    ensures var l := c[LeaderFrom(c, 0).value];
      var entry, n, n' := LogEntry(l.currentTerm, command), c[i], AfterRequest(c, command)[i];
      && n'.commitIndex <= |n'.log|
      && (CommittedLog(n') == CommittedLog(n)
          || (n.alive && |l.log| <= |n.log| && CommittedLog(n') == (n.log + [entry])[..|l.log| + 1]))
  {
    var l := c[LeaderFrom(c, 0).value];
    var n, n' := c[i], AfterRequest(c, command)[i];
    assert n' == NodeAfterRequest(c, LeaderFrom(c, 0).value, command, i);
    if n'.commitIndex == n.commitIndex {
      assert n'.log[..n.commitIndex] == n.log[..n.commitIndex];
    }
  }

  lemma {:induction false} KeptRequestKeepsPrefix(c: seq<Node>, command: string, i: nat, j: nat)
    requires i < |c| && j < |c| && Durable(c) && Commits(c) && Keeps(c, Request(command)) && c[j].alive
    ensures CommittedLog(AfterRequest(c, command)[i]) <= AfterRequest(c, command)[j].log
  {
    var c', k := AfterRequest(c, command), LeaderFrom(c, 0).value;
    var log, entry := c[k].log, LogEntry(c[k].currentTerm, command);
    assert c'[j] == NodeAfterRequest(c, k, command, j);
    assert c'[j].log == c[j].log + [entry];
    CommittedAfterRequest(c, command, i);
    if CommittedLog(c'[i]) == CommittedLog(c[i]) {
      PrefixOfAppended(CommittedLog(c[i]), entry, c[j].log);
    } else {
      assert TakesEntry(c[i], log, entry) && TakesEntry(c[j], log, entry);
      PrefixOfAppended(log, entry, c[j].log);
      PrefixOfAppended(log, entry, c[i].log);
      assert (c[i].log + [entry])[..|log| + 1] == log + [entry];
    }
  }

  lemma {:induction false} KeptRequestIsDurable(c: seq<Node>, command: string)
    requires Durable(c) && Commits(c) && Keeps(c, Request(command))
    ensures Durable(AfterRequest(c, command))
  {
    var c' := AfterRequest(c, command);
    forall i | 0 <= i < |c|
      ensures c'[i].commitIndex <= |c'[i].log|
    {
      CommittedAfterRequest(c, command, i);
    }
    forall i, j | 0 <= i < |c| && 0 <= j < |c| && c'[j].alive
      ensures CommittedLog(c'[i]) <= c'[j].log
    {
      assert c'[j] == NodeAfterRequest(c, LeaderFrom(c, 0).value, command, j);
      KeptRequestKeepsPrefix(c, command, i, j);
    }
  }

  lemma {:induction false} DurableRequestIsKept(c: seq<Node>, command: string)
    requires Durable(c) && Commits(c) && Durable(AfterRequest(c, command))
    ensures Keeps(c, Request(command))
  {
    var c', k := AfterRequest(c, command), LeaderFrom(c, 0).value;
    var l := c[k];
    var entry := LogEntry(l.currentTerm, command);
    assert c'[k] == NodeAfterRequest(c, k, command, k);
    assert c'[k].log == l.log + [entry] && CommittedLog(c'[k]) == l.log + [entry];
    forall j | 0 <= j < |c| && c[j].alive
      ensures TakesEntry(c[j], l.log, entry)
    {
      assert c'[j] == NodeAfterRequest(c, k, command, j);
      assert CommittedLog(c'[k]) <= c'[j].log;
      PrefixOfAppended(l.log, entry, c[j].log);
    }
  }

  lemma {:induction false} UncommittedRequestIsDurable(c: seq<Node>, command: string)
    requires Durable(c) && !Commits(c)
    ensures Durable(AfterRequest(c, command))
  {
    var c' := AfterRequest(c, command);
    forall i | 0 <= i < |c|
      ensures c'[i].commitIndex <= |c'[i].log| && CommittedLog(c'[i]) == CommittedLog(c[i])
      ensures c[i].log <= c'[i].log
    {
    }
  }

  /** Every event keeps committed entries on all live nodes if and only if it meets its guard. */
  lemma {:induction false} StepDurableIff(w: World, e: Event)
    requires ValidEvent(e, |w.nodes|) && Durable(w.nodes)
    ensures Durable(Step(w, e).nodes) <==> Keeps(w.nodes, e)
  {
    match e {
      case Election(i) => CommittedLogsKept(w.nodes, AfterElection(w.nodes, i));
      case Crash(i) => CommittedLogsKept(w.nodes, Step(w, e).nodes);
      case Revive(i) => RevivalDurableIff(w.nodes, i);
      case Request(command) =>
        if !Commits(w.nodes) {
          UncommittedRequestIsDurable(w.nodes, command);
        } else if Keeps(w.nodes, e) {
          KeptRequestIsDurable(w.nodes, command);
        } else if Durable(Step(w, e).nodes) {
          DurableRequestIsKept(w.nodes, command);
        }
    }
  }

  predicate KeptRun(w: World, es: seq<Event>)
    requires ValidEvents(es, |w.nodes|)
    decreases |es|
  {
    es == [] || (Keeps(w.nodes, es[0]) && KeptRun(Step(w, es[0]), es[1..]))
  }

  ghost predicate DurableThroughout(w: World, es: seq<Event>)
    requires ValidEvents(es, |w.nodes|)
    decreases |es|
  {
    Durable(w.nodes) && (es == [] || DurableThroughout(Step(w, es[0]), es[1..]))
  }

  lemma {:induction false} RunDurableIff(w: World, es: seq<Event>)
    requires ValidEvents(es, |w.nodes|) && Durable(w.nodes)
    ensures DurableThroughout(w, es) <==> KeptRun(w, es)
    decreases |es|
  {
    if es == [] {
    } else {
      StepDurableIff(w, es[0]);
      if Keeps(w.nodes, es[0]) {
        RunDurableIff(Step(w, es[0]), es[1..]);
      }
    }
  }

  /** Leader completeness, exactly: in every state of a run what any node has committed
      is a prefix of the log of every live node, if and only if every event of the run
      meets its guard. */
  lemma {:induction false} CommittedEntriesSurvive(n: nat, es: seq<Event>)
    requires ValidEvents(es, n)
    ensures DurableThroughout(Initial(n), es) <==> KeptRun(Initial(n), es)
  {
    RunDurableIff(Initial(n), es);
  }

  /** No event shortens a log or takes a commit back. */
  lemma {:induction false} NodesOnlyGrow(w: World, e: Event)
    requires ValidEvent(e, |w.nodes|)
    ensures forall i :: 0 <= i < |w.nodes| ==>
      var n, n' := w.nodes[i], Step(w, e).nodes[i];
      n.log <= n'.log && n.commitIndex <= n'.commitIndex
  {
  }

  lemma {:induction false} RunOnlyGrows(w: World, es: seq<Event>)
    requires ValidEvents(es, |w.nodes|)
    ensures forall i :: 0 <= i < |w.nodes| ==>
      var n, n' := w.nodes[i], Run(w, es).nodes[i];
      n.log <= n'.log && n.commitIndex <= n'.commitIndex
    decreases |es|
  {
    if es == [] {
    } else {
      NodesOnlyGrow(w, es[0]);
      RunOnlyGrows(Step(w, es[0]), es[1..]);
    }
  }

  lemma {:induction false} KeptRunEndsDurable(w: World, es: seq<Event>)
    requires ValidEvents(es, |w.nodes|) && Durable(w.nodes) && KeptRun(w, es)
    ensures Durable(Run(w, es).nodes)
    decreases |es|
  {
    if es == [] {
    } else {
      StepDurableIff(w, es[0]);
      KeptRunEndsDurable(Step(w, es[0]), es[1..]);
    }
  }

  lemma {:induction false} RunConcat(w: World, es: seq<Event>, fs: seq<Event>)
    requires ValidEvents(es, |w.nodes|) && ValidEvents(fs, |w.nodes|)
    ensures Run(w, es + fs) == Run(Run(w, es), fs)
    ensures CleanRun(w, es + fs) ==> CleanRun(w, es) && CleanRun(Run(w, es), fs)
    ensures KeptRun(w, es + fs) ==> KeptRun(w, es) && KeptRun(Run(w, es), fs)
    decreases |es|
  {
    if es == [] {
      assert es + fs == fs;
    } else {
      assert (es + fs)[1..] == es[1..] + fs;
      RunConcat(Step(w, es[0]), es[1..], fs);
    }
  }

  /** What a node had committed at any moment of such a run is in the log of every
      node that is live at any later one. */
  lemma {:induction false} CommittedEntriesStay(n: nat, es: seq<Event>, fs: seq<Event>, i: nat, j: nat)
    requires ValidEvents(es, n) && ValidEvents(fs, n) && KeptRun(Initial(n), es + fs)
    requires i < n && j < n
    ensures var before, after := Run(Initial(n), es).nodes, Run(Initial(n), es + fs).nodes;
      && before[i].commitIndex <= |before[i].log|
      && (after[j].alive ==> before[i].log[..before[i].commitIndex] <= after[j].log)
  {
    var w := Run(Initial(n), es);
    RunConcat(Initial(n), es, fs);
    KeptRunEndsDurable(Initial(n), es);
    KeptRunEndsDurable(w, fs);
    RunOnlyGrows(w, fs);
    var before, after := w.nodes, Run(w, fs).nodes;
    assert before[i].log[..before[i].commitIndex] <= CommittedLog(after[i]);
  }

  lemma {:induction false} AgreedIsDurable(c: seq<Node>, log: seq<LogEntry>)
    requires Agreed(c, log)
    ensures Durable(c)
  {
    forall i, j | 0 <= i < |c| && 0 <= j < |c| && c[j].alive
      ensures CommittedLog(c[i]) <= c[j].log
    {
      assert c[i].log <= log == c[j].log;
    }
  }

  lemma {:induction false} AgreeingRunsAreDurable(w: World, es: seq<Event>)
    requires ValidEvents(es, |w.nodes|) && AgreesThroughout(w, es)
    ensures DurableThroughout(w, es)
    decreases |es|
  {
    var log :| Agreed(w.nodes, log);
    AgreedIsDurable(w.nodes, log);
    if es == [] {
    } else {
      AgreeingRunsAreDurable(Step(w, es[0]), es[1..]);
    }
  }

  /** Runs in which the logs agree throughout keep committed entries in particular. */
  lemma {:induction false} CleanRunsKeepCommits(n: nat, es: seq<Event>)
    requires ValidEvents(es, n) && CleanRun(Initial(n), es)
    ensures KeptRun(Initial(n), es)
  {
    LogAgreement(n, es);
    AgreeingRunsAreDurable(Initial(n), es);
    CommittedEntriesSurvive(n, es);
  }

  // ---------------------------------------------------------------------------
  // Progress: who can get elected, from any state whatever
  // ---------------------------------------------------------------------------

  function Retries(candidate: nat, k: nat): seq<Event> {
    seq(k, _ => Election(candidate))
  }

  /** The live nodes whose logs let them vote for the candidate. */
  function Supporters(c: seq<Node>, candidate: nat): set<nat>
    requires candidate < |c|
  {
    set i: nat | i < |c| && c[i].alive && LogOk(c[candidate].log, c[i].log)
  }

  /** The candidate wins the election that follows m tries. */
  predicate WinsAfter(w: World, candidate: nat, m: nat)
    requires candidate < |w.nodes|
  {
    Wins(Run(w, Retries(candidate, m)).nodes, candidate)
  }

  lemma {:induction false} OneTry(w: World, candidate: nat, m: nat)
    requires candidate < |w.nodes|
    ensures Run(w, Retries(candidate, 0)) == w
    ensures Run(w, Retries(candidate, m + 1)) == Run(Step(w, Election(candidate)), Retries(candidate, m))
  {
    assert Retries(candidate, m + 1)[1..] == Retries(candidate, m);
  }

  lemma {:induction false} ElectionKeepsSupport(w: World, candidate: nat)
    requires candidate < |w.nodes|
    ensures var c, c' := w.nodes, Step(w, Election(candidate)).nodes;
      && c'[candidate].alive == c[candidate].alive
      && Supporters(c', candidate) == Supporters(c, candidate) && Alive(c') == Alive(c)
  {
  }

  lemma {:induction false} VotersAreSupporters(c: seq<Node>, candidate: nat)
    requires candidate < |c| && c[candidate].alive
    ensures |Voters(c, candidate)| <= |Supporters(c, candidate)| <= |Alive(c)|
  {
    SubsetSize(Voters(c, candidate), Supporters(c, candidate));
    SubsetSize(Supporters(c, candidate), Alive(c));
  }

  /** A candidate whose term none of its supporters exceeds gets all their votes. */
  lemma {:induction false} HighestTermWins(c: seq<Node>, candidate: nat)
    requires candidate < |c| && c[candidate].alive && |Supporters(c, candidate)| >= Quorum(|c|)
    requires forall i :: i in Supporters(c, candidate) ==> c[i].currentTerm <= c[candidate].currentTerm
    ensures Wins(c, candidate)
  {
    SubsetSize(Supporters(c, candidate), Voters(c, candidate));
  }

  lemma {:induction false} WinnerCommits(c: seq<Node>, candidate: nat)
    requires candidate < |c| && Wins(c, candidate)
    ensures LeaderFrom(AfterElection(c, candidate), 0) == Some(candidate)
    ensures Commits(AfterElection(c, candidate))
  {
    var c' := AfterElection(c, candidate);
    assert IsLiveLeader(c'[candidate]);
    forall i | 0 <= i < |c'| && i != candidate
      ensures !IsLiveLeader(c'[i])
    {
      assert c'[i] == NodeAfterElection(c, candidate, i);
    }
    assert Alive(c') == Alive(c);
    VotersAreSupporters(c, candidate);
  }

  /** With a quorum of supporters each lost try closes the gap to the highest term. */
  lemma {:induction false} SupportersElect(w: World, candidate: nat, bound: nat) returns (m: nat)
    requires candidate < |w.nodes| && w.nodes[candidate].alive
    requires |Supporters(w.nodes, candidate)| >= Quorum(|w.nodes|)
    requires forall i :: 0 <= i < |w.nodes| ==> w.nodes[i].currentTerm <= bound
    ensures WinsAfter(w, candidate, m)
    decreases bound - w.nodes[candidate].currentTerm
  {
    if Wins(w.nodes, candidate) {
      m := 0;
      OneTry(w, candidate, 0);
    } else {
      if w.nodes[candidate].currentTerm == bound {
        HighestTermWins(w.nodes, candidate);
        assert false;
      }
      ElectionKeepsSupport(w, candidate);
      var j := SupportersElect(Step(w, Election(candidate)), candidate, bound);
      m := j + 1;
      OneTry(w, candidate, j);
    }
  }

  lemma {:induction false} NoSupportNoWin(w: World, candidate: nat, m: nat)
    requires candidate < |w.nodes|
    requires !w.nodes[candidate].alive || |Supporters(w.nodes, candidate)| < Quorum(|w.nodes|)
    ensures !WinsAfter(w, candidate, m)
    decreases m
  {
    if m == 0 {
      OneTry(w, candidate, 0);
      if w.nodes[candidate].alive {
        VotersAreSupporters(w.nodes, candidate);
      }
    } else {
      ElectionKeepsSupport(w, candidate);
      NoSupportNoWin(Step(w, Election(candidate)), candidate, m - 1);
      OneTry(w, candidate, m - 1);
    }
  }

  lemma {:induction false} HighestTerm(c: seq<Node>) returns (bound: nat)
    ensures forall i :: 0 <= i < |c| ==> c[i].currentTerm <= bound
  {
    bound := 0;
    for i := 0 to |c|
      invariant forall j :: 0 <= j < i ==> c[j].currentTerm <= bound
    {
      bound := Max(bound, c[i].currentTerm);
    }
  }

  /** From any state, stale revivals included, a candidate that keeps standing wins if
      and only if it is live and a quorum of live nodes have logs no newer than its own. */
  lemma {:induction false} CandidateWinsIff(w: World, candidate: nat)
    requires candidate < |w.nodes|
    ensures (exists m: nat :: WinsAfter(w, candidate, m)) <==>
      w.nodes[candidate].alive && |Supporters(w.nodes, candidate)| >= Quorum(|w.nodes|)
  {
    if w.nodes[candidate].alive && |Supporters(w.nodes, candidate)| >= Quorum(|w.nodes|) {
      var bound := HighestTerm(w.nodes);
      var m := SupportersElect(w, candidate, bound);
    } else {
      forall m: nat
        ensures !WinsAfter(w, candidate, m)
      {
        NoSupportNoWin(w, candidate, m);
      }
    }
  }

  /** A candidate missing entries that all but less than a quorum hold never wins, however
      often it stands. */
  lemma {:induction false} StaleCandidateNeverWins(w: World, candidate: nat, holders: set<nat>, m: nat)
    requires candidate < |w.nodes| && |w.nodes| - |holders| < Quorum(|w.nodes|)
    requires forall i :: i in holders ==>
      i < |w.nodes| && w.nodes[candidate].log < w.nodes[i].log && LogTermsSorted(w.nodes[i].log)
    ensures !WinsAfter(w, candidate, m)
  {
    var supporters := Supporters(w.nodes, candidate);
    forall i | i in supporters
      ensures i !in holders
    {
      if i in holders {
        PrefixIsRefused(w.nodes[candidate].log, w.nodes[i].log);
      }
    }
    assert |supporters + holders| == |supporters| + |holders|;
    BelowSize(supporters + holders, |w.nodes|);
    NoSupportNoWin(w, candidate, m);
  }

  /** Once it wins it is the leader that requests go to, and they commit. */
  lemma {:induction false} WinnerLeads(w: World, candidate: nat, m: nat)
    requires candidate < |w.nodes| && WinsAfter(w, candidate, m)
    ensures var c := Run(w, Retries(candidate, m + 1)).nodes;
      LeaderFrom(c, 0) == Some(candidate) && Commits(c)
  {
    var w' := Run(w, Retries(candidate, m));
    assert Retries(candidate, m + 1) == Retries(candidate, m) + [Election(candidate)];
    RunConcat(w, Retries(candidate, m), [Election(candidate)]);
    assert Run(w', [Election(candidate)]) == Step(w', Election(candidate));
    WinnerCommits(w'.nodes, candidate);
  }

  /** No live node's log is newer: greatest last term, then greatest length. */
  predicate UpToDate(c: seq<Node>, k: nat)
    requires k < |c|
  {
    forall i :: 0 <= i < |c| && c[i].alive ==> LogOk(c[k].log, c[i].log)
  }

  lemma {:induction false} SomeoneIsUpToDate(c: seq<Node>) returns (k: nat)
    requires Alive(c) != {}
    ensures k < |c| && c[k].alive && UpToDate(c, k)
  {
    k :| k in Alive(c);
    for i := 0 to |c|
      invariant k < |c| && c[k].alive
      invariant forall j :: 0 <= j < i && c[j].alive ==> LogOk(c[k].log, c[j].log)
    {
      if c[i].alive && !LogOk(c[k].log, c[i].log) {
        k := i;
      }
    }
  }

  /** While a majority is alive the cluster makes progress, in every state: every live
      node with the newest log ends up leading once it keeps standing, and its
      requests commit. */
  lemma {:induction false} MajorityMakesProgress(w: World, candidate: nat) returns (m: nat)
    requires candidate < |w.nodes| && w.nodes[candidate].alive && UpToDate(w.nodes, candidate)
    requires |Alive(w.nodes)| >= Quorum(|w.nodes|)
    ensures var c := Run(w, Retries(candidate, m)).nodes;
      LeaderFrom(c, 0) == Some(candidate) && Commits(c)
  {
    assert Supporters(w.nodes, candidate) == Alive(w.nodes);
    CandidateWinsIff(w, candidate);
    var k: nat :| WinsAfter(w, candidate, k);
    WinnerLeads(w, candidate, k);
    m := k + 1;
  }

  /** Somebody can get elected if and only if a majority is alive. */
  lemma {:induction false} ProgressIffMajority(w: World)
    ensures (exists k: nat, m: nat :: k < |w.nodes| && WinsAfter(w, k, m)) <==>
      |Alive(w.nodes)| >= Quorum(|w.nodes|)
  {
    if |Alive(w.nodes)| >= Quorum(|w.nodes|) {
      var k := SomeoneIsUpToDate(w.nodes);
      assert Supporters(w.nodes, k) == Alive(w.nodes);
      CandidateWinsIff(w, k);
    }
    if k: nat, m: nat :| k < |w.nodes| && WinsAfter(w, k, m) {
      CandidateWinsIff(w, k);
      VotersAreSupporters(w.nodes, k);
    }
  }

  // ---------------------------------------------------------------------------
  // When a reported commit is on a majority
  // ---------------------------------------------------------------------------

  /** The nodes that hold this entry at this position. */
  function Bearers(c: seq<Node>, index: nat, entry: LogEntry): set<nat> {
    set i: nat | i < |c| && index < |c[i].log| && c[i].log[index] == entry
  }

  /** The live nodes whose logs have exactly this length. */
  function Abreast(c: seq<Node>, length: nat): set<nat> {
    set i: nat | i < |c| && c[i].alive && |c[i].log| == length
  }

  /** A request that reports a commit has its entry in place on a majority if and only
      if the live nodes abreast of the leader, with those that had that very entry
      there already, are one; where all logs agree they always are. */
  lemma {:induction false} CommitIsOnMajorityIff(c: seq<Node>, command: string)
    requires Commits(c)
    ensures var l := LeaderFrom(c, 0).value;
      var index, entry := |c[l].log|, LogEntry(c[l].currentTerm, command);
      && (|Bearers(AfterRequest(c, command), index, entry)| >= Quorum(|c|) <==>
            |Bearers(c, index, entry) + Abreast(c, index)| >= Quorum(|c|))
      && ((exists log :: LogsAgree(c, log)) ==> |Bearers(AfterRequest(c, command), index, entry)| >= Quorum(|c|))
  {
    var l := LeaderFrom(c, 0).value;
    var index, entry := |c[l].log|, LogEntry(c[l].currentTerm, command);
    assert Bearers(AfterRequest(c, command), index, entry) == Bearers(c, index, entry) + Abreast(c, index);
    if log :| LogsAgree(c, log) {
      SubsetSize(Alive(c), Bearers(c, index, entry) + Abreast(c, index));
    }
  }

  // ---------------------------------------------------------------------------
  // Two runs with a stale revival
  // ---------------------------------------------------------------------------

  lemma {:induction false} FirstLeaderDeposed() returns (w: World)
    ensures w == Run(Initial(3), [Election(0), Crash(0), Election(1)])
    ensures w.nodes == [Node(Leader, 1, Some(0), [], 0, false),
                        Node(Leader, 2, Some(1), [], 0, true), Node(Follower, 2, Some(1), [], 0, true)]
  {
    var w0 := Initial(3);
    assert Voters(w0.nodes, 0) == {0, 1, 2};
    var w1 := Step(w0, Election(0));
    assert w1.nodes == [Node(Leader, 1, Some(0), [], 0, true),
                        Node(Follower, 1, Some(0), [], 0, true), Node(Follower, 1, Some(0), [], 0, true)];
    var w2 := Step(w1, Crash(0));
    assert Voters(w2.nodes, 1) == {1, 2};
    w := Step(w2, Election(1));
    var es := [Election(0), Crash(0), Election(1)];
    assert Run(w0, es) == Run(w1, es[1..]) == Run(w2, es[1..][1..]) == Run(w, es[1..][1..][1..]);
  }

  lemma {:induction false} DeposedLeaderReturns(w: World)
    requires w.nodes == [Node(Leader, 1, Some(0), [], 0, false),
                         Node(Leader, 2, Some(1), [], 0, true), Node(Follower, 2, Some(1), [], 0, true)]
    ensures var c := Run(w, [Request("x"), Revive(0), Request("y")]).nodes;
      |c| == 3 && !OneLiveLeader(c) && !LogTermsSorted(c[1].log)
  {
    var es := [Request("x"), Revive(0), Request("y")];
    assert IsLiveLeader(w.nodes[1]) && LeaderFrom(w.nodes, 0) == Some(1);
    var w1 := Step(w, Request("x"));
    assert w1.nodes[0] == w.nodes[0] && w1.nodes[1].log == [LogEntry(2, "x")];
    var w2 := Step(w1, Revive(0));
    assert IsLiveLeader(w2.nodes[0]) && LeaderFrom(w2.nodes, 0) == Some(0);
    var w3 := Step(w2, Request("y"));
    assert Run(w, es) == Run(w1, es[1..]) == Run(w2, es[1..][1..]) == Run(w3, es[1..][1..][1..]) == w3;
    assert w3.nodes[1].log == [LogEntry(2, "x"), LogEntry(1, "y")];
    assert w3.nodes[1].log[0].term > w3.nodes[1].log[1].term;
    assert IsLiveLeader(w3.nodes[0]) && IsLiveLeader(w3.nodes[1]);
  }

  /** A deposed leader that revives is not demoted: two leaders are live, and a
      request accepted by the old one puts a term 1 entry after a term 2 entry. */
  lemma {:induction false} StaleRevivalBreaksAgreement()
    ensures var es := [Election(0), Crash(0), Election(1)] + [Request("x"), Revive(0), Request("y")];
      && ValidEvents(es, 3)
      && var c := Run(Initial(3), es).nodes;
      && !OneLiveLeader(c) && !LogTermsSorted(c[1].log)
  {
    var w := FirstLeaderDeposed();
    DeposedLeaderReturns(w);
    RunConcat(Initial(3), [Election(0), Crash(0), Election(1)], [Request("x"), Revive(0), Request("y")]);
  }

  const A := LogEntry(1, "a")
  const B := LogEntry(1, "b")
  const C := LogEntry(1, "c")
  const D := LogEntry(2, "d")

  /** Three live nodes led by node 0 that committed the whole log. */
  function Trio(log: seq<LogEntry>): seq<Node> {
    [Node(Leader, 1, Some(0), log, |log|, true),
     Node(Follower, 1, Some(0), log, |log|, true), Node(Follower, 1, Some(0), log, |log|, true)]
  }

  lemma {:induction false} TrioElected()
    ensures Step(Initial(3), Election(0)).nodes == Trio([])
  {
    assert Voters(Initial(3).nodes, 0) == {0, 1, 2};
  }

  lemma {:induction false} TrioAppends(w: World, log: seq<LogEntry>, command: string)
    requires w.nodes == Trio(log)
    ensures Step(w, Request(command)).nodes == Trio(log + [LogEntry(1, command)])
  {
    assert IsLiveLeader(w.nodes[0]) && LeaderFrom(w.nodes, 0) == Some(0);
    assert Alive(w.nodes) == {0, 1, 2};
  }

  lemma {:induction false} TwoEntriesCommitted() returns (w: World)
    ensures w == Run(Initial(3), [Election(0), Request("a"), Request("b")])
    ensures w.nodes == Trio([A, B])
  {
    var w0 := Initial(3);
    TrioElected();
    var w1 := Step(w0, Election(0));
    TrioAppends(w1, [], "a");
    var w2 := Step(w1, Request("a"));
    assert [] + [A] == [A];
    TrioAppends(w2, [A], "b");
    w := Step(w2, Request("b"));
    assert [A] + [B] == [A, B];
    var es := [Election(0), Request("a"), Request("b")];
    assert Run(w0, es) == Run(w1, es[1..]) == Run(w2, es[1..][1..]) == Run(w, es[1..][1..][1..]);
  }

  /** Nodes 0 and 1 commit a third entry after node 2 went down. */
  lemma {:induction false} ThirdEntryCommitted(w: World) returns (w': World)
    requires w.nodes == Trio([A, B])
    ensures w' == Run(w, [Crash(2), Request("c")])
    ensures w'.nodes == [Node(Leader, 1, Some(0), [A, B, C], 3, true),
                         Node(Follower, 1, Some(0), [A, B, C], 3, true),
                         Node(Follower, 1, Some(0), [A, B], 2, false)]
  {
    var w1 := Step(w, Crash(2));
    assert IsLiveLeader(w1.nodes[0]) && LeaderFrom(w1.nodes, 0) == Some(0);
    assert Alive(w1.nodes) == {0, 1};
    assert [A, B] + [C] == [A, B, C];
    w' := Step(w1, Request("c"));
    var es := [Crash(2), Request("c")];
    assert Run(w, es) == Run(w1, es[1..]) == Run(w', es[1..][1..]);
  }

  lemma {:induction false} LaggardReturns(w: World) returns (w': World)
    requires w.nodes == [Node(Leader, 1, Some(0), [A, B, C], 3, true),
                         Node(Follower, 1, Some(0), [A, B, C], 3, true),
                         Node(Follower, 1, Some(0), [A, B], 2, false)]
    ensures w' == Run(w, [Crash(0), Revive(2), Election(1)])
    ensures w'.nodes == [Node(Leader, 1, Some(0), [A, B, C], 3, false),
                         Node(Leader, 2, Some(1), [A, B, C], 3, true),
                         Node(Follower, 2, Some(1), [A, B], 2, true)]
  {
    var w1 := Step(w, Crash(0));
    var w2 := Step(w1, Revive(2));
    assert Voters(w2.nodes, 1) == {1, 2};
    w' := Step(w2, Election(1));
    var es := [Crash(0), Revive(2), Election(1)];
    assert Run(w, es) == Run(w1, es[1..]) == Run(w2, es[1..][1..]) == Run(w', es[1..][1..][1..]);
  }

  lemma {:induction false} FollowerFallsBehind(c: seq<Node>)
    requires c == [Node(Leader, 1, Some(0), [A, B, C], 3, false),
                   Node(Leader, 2, Some(1), [A, B, C], 3, true),
                   Node(Follower, 2, Some(1), [A, B], 2, true)]
    ensures Commits(c) && LeaderFrom(c, 0) == Some(1)
    ensures var c' := AfterRequest(c, "d");
      && c'[0].log == [A, B, C] && c'[1].log == [A, B, C, D] && c'[2].log == [A, B, D]
      && c'[1].commitIndex == 4
  {
    assert !IsLiveLeader(c[0]) && IsLiveLeader(c[1]);
    assert LeaderFrom(c, 0) == LeaderFrom(c, 1) == Some(1);
    assert Alive(c) == {1, 2};
    var c' := AfterRequest(c, "d");
    assert [A, B, C] + [D] == [A, B, C, D] && [A, B] + [D] == [A, B, D];
    assert c'[1] == NodeAfterRequest(c, 1, "d", 1) && c'[2] == NodeAfterRequest(c, 1, "d", 2);
  }

  /** A node that was down for one entry revives and another is elected, as in the
      program's own scenario. */
  const LAGGARD_RUN := [Election(0), Request("a"), Request("b")] + [Crash(2), Request("c")]
                       + [Crash(0), Revive(2), Election(1)]

  lemma {:induction false} LaggardRun()
    ensures ValidEvents(LAGGARD_RUN, 3)
    ensures Run(Initial(3), LAGGARD_RUN).nodes == [Node(Leader, 1, Some(0), [A, B, C], 3, false),
                                                   Node(Leader, 2, Some(1), [A, B, C], 3, true),
                                                   Node(Follower, 2, Some(1), [A, B], 2, true)]
  {
    var es, fs, gs := [Election(0), Request("a"), Request("b")], [Crash(2), Request("c")],
                      [Crash(0), Revive(2), Election(1)];
    var w := TwoEntriesCommitted();
    var w' := ThirdEntryCommitted(w);
    var w'' := LaggardReturns(w');
    RunConcat(Initial(3), es, fs);
    RunConcat(Initial(3), es + fs, gs);
  }

  /** The next request reports a commit at index 4, which only the leader holds, and the
      follower has another entry at an index that the leader had committed. */
  lemma {:induction false} StaleLogBreaksQuorum()
    ensures ValidEvents(LAGGARD_RUN, 3)
    ensures var c := Run(Initial(3), LAGGARD_RUN).nodes;
      var c' := AfterRequest(c, "d");
      && Commits(c) && c'[1].commitIndex == 4 && Holders(c', 4) == {1}
      && |c'[2].log| == 3 && c'[2].log[2] != c'[1].log[2]
  {
    LaggardRun();
    FollowerFallsBehind(Run(Initial(3), LAGGARD_RUN).nodes);
  }

  /** In the program's scenario, once node 2 is back with a stale log, it cannot be elected
      and node 1 can. */
  lemma {:induction false} LaggardLoses()
    ensures ValidEvents([Election(0), Request("a"), Request("b")] + [Crash(2), Request("c")] + [Crash(0), Revive(2)], 3)
    ensures var c := Run(Initial(3), [Election(0), Request("a"), Request("b")] + [Crash(2), Request("c")]
                                     + [Crash(0), Revive(2)]).nodes;
      !Wins(c, 2) && Wins(c, 1)
  {
    var es, fs, gs := [Election(0), Request("a"), Request("b")], [Crash(2), Request("c")], [Crash(0), Revive(2)];
    var w := TwoEntriesCommitted();
    var w' := ThirdEntryCommitted(w);
    RunConcat(Initial(3), es, fs);
    RunConcat(Initial(3), es + fs, gs);
    LaggardIsRefused(w');
  }

  lemma {:induction false} LaggardIsRefused(w: World)
    requires w.nodes == [Node(Leader, 1, Some(0), [A, B, C], 3, true),
                         Node(Follower, 1, Some(0), [A, B, C], 3, true),
                         Node(Follower, 1, Some(0), [A, B], 2, false)]
    ensures var c := Run(w, [Crash(0), Revive(2)]).nodes;
      |c| == 3 && !Wins(c, 2) && Wins(c, 1)
  {
    var es := [Crash(0), Revive(2)];
    var w1 := Step(w, Crash(0));
    var c := Step(w1, Revive(2)).nodes;
    assert Run(w, es) == Run(w1, es[1..]) == Run(Step(w1, Revive(2)), es[1..][1..]);
    assert Voters(c, 2) == {2} && Voters(c, 1) == {1, 2};
  }
}
