/** What stale sends break. */
module RaftStaleSend {
  /* `leader_propose` re-reads the term and the log for every peer, so a deposed leader can send its old entry under a
      later term and behind another entry. */

  import opened Wrappers
  import opened Raft
  import opened RaftCluster
  import opened RaftElection
  import opened RaftLogs

  ghost predicate Reaches(c: Cluster, d: Cluster) {
    exists steps :: IsRun(c, steps) && Exec(c, steps) == d
  }

  lemma ReachesItself(c: Cluster)
    ensures Reaches(c, c)
  {
    assert IsRun(c, []) && Exec(c, []) == c;
  }

  lemma {:induction false} RunThenStep(c: Cluster, steps: seq<Step>, s: Step)
    requires IsRun(c, steps) && Enabled(Exec(c, steps), s)
    ensures IsRun(c, steps + [s]) && Exec(c, steps + [s]) == Apply(Exec(c, steps), s)
    decreases |steps|
  {
    hide Enabled, Apply;
    if steps == [] {
      assert steps + [s] == [s];
      assert [s][1..] == [];
    } else {
      assert (steps + [s])[1..] == steps[1..] + [s];
      RunThenStep(Apply(c, steps[0]), steps[1..], s);
    }
  }

  lemma ReachesNext(c: Cluster, d: Cluster, s: Step)
    requires Reaches(c, d) && Enabled(d, s)
    ensures Reaches(c, Apply(d, s))
  {
    hide Enabled, Apply;
    var steps :| IsRun(c, steps) && Exec(c, steps) == d;
    RunThenStep(c, steps, s);
    assert IsRun(c, steps + [s]);
  }

  /** Nobody's ticker is mid-tick and no term exceeds `term`. */
  ghost predicate Idling(peersOf: map<Id, seq<Id>>, s: Cluster, term: nat) {
    && Reaches(Init(peersOf), s) && s.ticks == Init(peersOf).ticks && s.nodes.Keys == peersOf.Keys
    && forall i :: i in s.nodes ==> s.nodes[i].id == i && s.nodes[i].peers == peersOf[i] && s.nodes[i].currentTerm <= term
  }

  lemma IdlingHas(peersOf: map<Id, seq<Id>>, s: Cluster, term: nat)
    requires Idling(peersOf, s, term)
    ensures Reaches(Init(peersOf), s) && s.nodes.Keys == s.ticks.Keys == peersOf.Keys
    ensures forall i :: i in s.ticks ==> s.ticks[i] == Idle
  {
    hide Reaches;
  }

  lemma IdlingNode(peersOf: map<Id, seq<Id>>, s: Cluster, term: nat, i: Id)
    requires Idling(peersOf, s, term) && i in peersOf
    ensures i in s.nodes && s.nodes[i].id == i && s.nodes[i].peers == peersOf[i] && s.nodes[i].currentTerm <= term
  {
    hide Reaches;
  }

  /** One node has changed, within its identity and the term. */
  lemma StillIdling(peersOf: map<Id, seq<Id>>, s: Cluster, t: Cluster, term: nat, p: Id)
    requires Idling(peersOf, s, term) && Reaches(Init(peersOf), t) && t.ticks == s.ticks
    requires p in s.nodes && p in t.nodes && t.nodes == s.nodes[p := t.nodes[p]]
    requires t.nodes[p].id == s.nodes[p].id && t.nodes[p].peers == s.nodes[p].peers && t.nodes[p].currentTerm <= term
    ensures Idling(peersOf, t, term)
  {
    hide Reaches;
  }

  function VoterFor(n: Node, candidate: Node): Node {
    n.(currentTerm := candidate.currentTerm, state := Follower, votedFor := Some(candidate.id))
  }

  /** A node in a higher term than its voter's, or tied, with a log at least as recent, gets the vote. */
  lemma GetsVote(z: Cluster, c: Cluster, i: Id, p: Id) returns (d: Cluster)
    requires Reaches(z, c) && i in c.nodes && i in c.ticks && c.ticks[i].Collecting?
    requires p in c.nodes && p != i && p in c.nodes[i].peers && c.nodes[i].id == i
    requires c.nodes[i].currentTerm == c.ticks[i].term > c.nodes[p].currentTerm
    requires UpToDate(LastLogTerm(c.nodes[i].log), LastLogIndex(c.nodes[i].log), LastLogTerm(c.nodes[p].log), LastLogIndex(c.nodes[p].log))
    ensures Reaches(z, d) && d.proposals == c.proposals
    ensures d.nodes == c.nodes[p := VoterFor(c.nodes[p], c.nodes[i])]
    ensures d.ticks == c.ticks[i := c.ticks[i].(votes := c.ticks[i].votes + {p})]
  {
    var n := c.nodes[i];
    var ask := VoteReq(p, RequestVote(n.currentTerm, i, LastLogIndex(n.log), LastLogTerm(n.log)));
    ReachesNext(z, c, AskVote(i, p));
    var c1 := DoAskVote(c, i, p);
    ReachesNext(z, c1, AnswerVote(ask));
    var c2 := DoAnswerVote(c1, ask);
    var answer := VoteResp(p, i, VoteResponse(n.currentTerm, true));
    ReachesNext(z, c2, CountVote(i, answer));
    d := DoCountVote(c2, i, answer);
  }

  /** A candidate collects the votes of any nodes whose logs are its own and whose terms are lower. */
  lemma {:induction false} GathersVotes(z: Cluster, c: Cluster, i: Id, voters: set<Id>) returns (d: Cluster)
    requires Reaches(z, c) && i in c.nodes && i in c.ticks && c.ticks[i].Collecting? && i !in voters
    requires c.nodes[i].id == i && c.nodes[i].currentTerm == c.ticks[i].term
    requires forall p :: p in voters ==>
      p in c.nodes && p in c.nodes[i].peers && c.nodes[p].currentTerm < c.nodes[i].currentTerm && c.nodes[p].log == c.nodes[i].log
    ensures Reaches(z, d) && d.proposals == c.proposals && d.nodes.Keys == c.nodes.Keys
    ensures forall p :: p in c.nodes ==> d.nodes[p] == if p in voters then VoterFor(c.nodes[p], c.nodes[i]) else c.nodes[p]
    ensures d.ticks == c.ticks[i := c.ticks[i].(votes := c.ticks[i].votes + voters)]
    decreases |voters|
  {
    hide Reaches;
    if voters == {} {
      d := c;
    } else {
      var p :| p in voters;
      var c1 := GetsVote(z, c, i, p);
      d := GathersVotes(z, c1, i, voters - {p});
      assert {p} + (voters - {p}) == voters;
      assert c.ticks[i].votes + {p} + (voters - {p}) == c.ticks[i].votes + voters;
    }
  }

  lemma Campaigns(z: Cluster, c: Cluster, i: Id) returns (d: Cluster)
    requires Reaches(z, c) && Enabled(c, Timeout(i))
    ensures Reaches(z, d) && d.proposals == c.proposals && d.nodes == c.nodes[i := StartElection(c.nodes[i])]
    ensures d.ticks == c.ticks[i := Collecting(c.nodes[i].currentTerm + 1, {i})]
  {
    ReachesNext(z, c, Timeout(i));
    var c1 := DoTimeout(c, i);
    ReachesNext(z, c1, Observe(i));
    var c2 := c1.(ticks := c1.ticks[i := Observed]);
    ReachesNext(z, c2, Capture(i));
    d := c2.(ticks := c2.ticks[i := Collecting(c2.nodes[i].currentTerm, {i})]);
  }

  lemma WinsVote(z: Cluster, c: Cluster, i: Id) returns (d: Cluster)
    requires Reaches(z, c) && i in c.nodes && i in c.ticks && c.ticks[i].Collecting? && c.nodes[i].state == Candidate
    requires |c.ticks[i].votes| >= Majority(c.nodes[i])
    ensures Reaches(z, d) && d.proposals == c.proposals && d.ticks == c.ticks[i := Idle]
    ensures d.nodes == c.nodes[i := BecomeLeader(c.nodes[i])]
  {
    ReachesNext(z, c, CloseTick(i));
    d := DoCloseTick(c, i);
  }

  lemma MajorityOf(peersOf: map<Id, seq<Id>>, i: Id)
    requires StaticMembership(peersOf) && i in peersOf
    ensures |peersOf[i]| == |peersOf| - 1 && forall p :: p in peersOf && p != i ==> p in peersOf[i]
  {
    assert Configured(peersOf[i], i, peersOf.Keys);
    DistinctSize(peersOf[i]);
    assert (set x | x in peersOf[i]) == peersOf.Keys - {i};
  }

  /** The votes of a majority make a candidate leader. */
  lemma GetsElected(peersOf: map<Id, seq<Id>>, c: Cluster, i: Id, voters: set<Id>) returns (d: Cluster)
    requires Reaches(Init(peersOf), c) && i in c.nodes && i in c.ticks && c.ticks[i] == Idle
    requires c.nodes[i].state == Follower && c.nodes[i].id == i && Majority(c.nodes[i]) <= |voters| + 1 && i !in voters
    requires forall p :: p in voters ==>
      p in c.nodes && p in c.nodes[i].peers && c.nodes[p].currentTerm <= c.nodes[i].currentTerm && c.nodes[p].log == c.nodes[i].log
    ensures Reaches(Init(peersOf), d) && d.proposals == c.proposals && d.ticks == c.ticks && d.nodes.Keys == c.nodes.Keys
    ensures d.nodes[i] == BecomeLeader(StartElection(c.nodes[i]))
    ensures forall p :: p in c.nodes && p != i ==>
      d.nodes[p] == if p in voters then VoterFor(c.nodes[p], StartElection(c.nodes[i])) else c.nodes[p]
  {
    hide Reaches, BecomeLeader;
    var z := Init(peersOf);
    var c1 := Campaigns(z, c, i);
    var c2 := GathersVotes(z, c1, i, voters);
    assert |{i} + voters| == |voters| + 1;
    d := WinsVote(z, c2, i);
    assert d.ticks == c.ticks;
  }

  /** A follower takes over the next term with the votes of a majority. */
  lemma TakesOver(peersOf: map<Id, seq<Id>>, c: Cluster, i: Id, voters: set<Id>, term: nat) returns (d: Cluster)
    requires StaticMembership(peersOf) && Idling(peersOf, c, term)
    requires i in c.nodes && c.nodes[i].state == Follower && c.nodes[i].currentTerm == term
    requires i !in voters && voters <= c.nodes.Keys && 2 * (|voters| + 1) > |peersOf|
    requires forall p :: p in voters ==> c.nodes[p].log == c.nodes[i].log
    ensures Idling(peersOf, d, term + 1) && d.proposals == c.proposals
    ensures d.nodes[i].state == Leader && d.nodes[i].currentTerm == term + 1
    ensures forall p :: p in voters ==> d.nodes[p].state == Follower && d.nodes[p].currentTerm == term + 1
    ensures forall p :: p in d.nodes ==> d.nodes[p].log == c.nodes[p].log
  {
    hide Reaches, StaticMembership, Init, Idling, BecomeLeader, StartElection, VoterFor;
    IdlingHas(peersOf, c, term);
    MajorityOf(peersOf, i);
    forall p | p in c.nodes ensures c.nodes[p].id == p && c.nodes[p].peers == peersOf[p] && c.nodes[p].currentTerm <= term {
      IdlingNode(peersOf, c, term, p);
    }
    d := GetsElected(peersOf, c, i, voters);
    forall p | p in d.nodes
      ensures d.nodes[p].id == p && d.nodes[p].peers == peersOf[p] && d.nodes[p].currentTerm <= term + 1
      ensures d.nodes[p].log == c.nodes[p].log
      ensures p in voters ==> d.nodes[p].state == Follower && d.nodes[p].currentTerm == term + 1
      ensures p == i ==> d.nodes[p].state == Leader && d.nodes[p].currentTerm == term + 1
    {
      ElectedParts(c.nodes[i], c.nodes[p]);
    }
    AllIdling(peersOf, d, term + 1);
  }

  lemma ElectedParts(n: Node, v: Node)
    ensures var m := BecomeLeader(StartElection(n));
            m.id == n.id && m.peers == n.peers && m.log == n.log && m.state == Leader && m.currentTerm == n.currentTerm + 1
    ensures var m := VoterFor(v, StartElection(n));
            m.id == v.id && m.peers == v.peers && m.log == v.log && m.state == Follower && m.currentTerm == n.currentTerm + 1
  {
  }

  lemma AllIdling(peersOf: map<Id, seq<Id>>, s: Cluster, term: nat)
    requires Reaches(Init(peersOf), s) && s.nodes.Keys == s.ticks.Keys == peersOf.Keys
    requires forall i :: i in s.ticks ==> s.ticks[i] == Idle
    requires forall i :: i in s.nodes ==> s.nodes[i].id == i && s.nodes[i].peers == peersOf[i] && s.nodes[i].currentTerm <= term
    ensures Idling(peersOf, s, term)
  {
    hide Reaches;
    assert s.ticks == Init(peersOf).ticks;
  }

  /** The receiver cuts its log at the entry's position and appends it. */
  lemma AcceptsOne(n: Node, id: Id, term: nat, commit: nat, log: seq<LogEntry>, e: LogEntry)
    requires 1 <= e.index <= |n.log| + 1 && e.index <= |log| + 1 && n.currentTerm <= term
    requires e.index > 1 ==> n.log[e.index - 2].term == log[e.index - 2].term
    requires e.index <= |n.log| ==> n.log[e.index - 1].term != e.term
    ensures var m := HandleAppendEntries(n, BuildAppend(id, term, commit, log, [e])).0;
            m.log == n.log[..e.index - 1] + [e] && m.currentTerm == term && m.id == n.id && m.peers == n.peers
  {
    var at := e.index - 1;
    assert Agreeing(n.log, at, [e]) == 0;
    assert [e][0..] == [e];
  }

  /** A message is sent and arrives. */
  lemma Delivers(z: Cluster, c: Cluster, s: Step, p: Id, ae: AppendEntries) returns (d: Cluster)
    requires Reaches(z, c) && Enabled(c, s) && Apply(c, s) == c.(net := c.net + {Append(p, ae)}) && p in c.nodes
    ensures Reaches(z, d) && d.proposals == c.proposals && d.ticks == c.ticks
    ensures d.nodes == c.nodes[p := HandleAppendEntries(c.nodes[p], ae).0]
  {
    hide Reaches, HandleAppendEntries;
    ReachesNext(z, c, s);
    var c1 := c.(net := c.net + {Append(p, ae)});
    assert Append(p, ae) in c1.net;
    ReachesNext(z, c1, AnswerAppend(Append(p, ae)));
    d := DoAnswerAppend(c1, Append(p, ae));
  }

  /** All other nodes are as before. */
  ghost predicate OnlyAt(c: Cluster, d: Cluster, p: Id) {
    p in d.nodes && forall r :: r in c.nodes && r != p ==> r in d.nodes && d.nodes[r] == c.nodes[r]
  }

  ghost predicate Shows(c: Cluster, p: Id, log: seq<LogEntry>, term: nat) {
    p in c.nodes && c.nodes[p].log == log && c.nodes[p].currentTerm == term
  }

  ghost predicate Leads(c: Cluster, p: Id) {
    p in c.nodes && c.nodes[p].state == Leader
  }

  /** The proposer's message for an entry reaches a node that takes it. */
  lemma Replicates(peersOf: map<Id, seq<Id>>, c: Cluster, q: Proposal, p: Id, from: seq<LogEntry>, to: seq<LogEntry>, term: nat)
    returns (d: Cluster)
    requires StaticMembership(peersOf) && Idling(peersOf, c, term) && q in c.proposals && q.leader in peersOf
    requires p in peersOf && p != q.leader && Shows(c, q.leader, from, term) && p in c.nodes && c.nodes[p].log == to
    requires var at := q.entry.index;
             && 1 <= at <= |to| + 1 && at <= |from| + 1
             && (at > 1 ==> to[at - 2].term == from[at - 2].term)
             && (at <= |to| ==> to[at - 1].term != q.entry.term)
    ensures Idling(peersOf, d, term) && d.proposals == c.proposals && OnlyAt(c, d, p)
    ensures Shows(d, p, to[..q.entry.index - 1] + [q.entry], term)
  {
    hide Reaches, Idling, HandleAppendEntries, BuildAppend, StaticMembership;
    MajorityOf(peersOf, q.leader);
    IdlingHas(peersOf, c, term);
    IdlingNode(peersOf, c, term, q.leader);
    IdlingNode(peersOf, c, term, p);
    var n := c.nodes[q.leader];
    AcceptsOne(c.nodes[p], n.id, n.currentTerm, n.commitIndex, n.log, q.entry);
    d := Delivers(Init(peersOf), c, SendEntry(q, p), p, EntryMessage(n, q.entry));
    StillIdling(peersOf, c, d, term, p);
  }

  lemma Proposes(peersOf: map<Id, seq<Id>>, c: Cluster, i: Id, key: string, log: seq<LogEntry>, term: nat)
    returns (d: Cluster, q: Proposal)
    requires Idling(peersOf, c, term) && Leads(c, i) && Shows(c, i, log, term)
    ensures q == Proposal(i, LogEntry(term, LastLogIndex(log) + 1, key, ""), LastLogTerm(log))
    ensures Idling(peersOf, d, term) && d.proposals == c.proposals + {q} && OnlyAt(c, d, i)
    ensures Leads(d, i) && Shows(d, i, log + [q.entry], term)
  {
    hide Reaches, Idling;
    IdlingHas(peersOf, c, term);
    IdlingNode(peersOf, c, term, i);
    q := Proposal(i, NextEntry(c.nodes[i], key, ""), LastLogTerm(c.nodes[i].log));
    ReachesNext(Init(peersOf), c, Propose(i, key, ""));
    d := DoPropose(c, i, key, "");
    StillIdling(peersOf, c, d, term, i);
  }

  /** A heartbeat lifts a node into the sender's term and leaves its log alone. */
  lemma Beats(peersOf: map<Id, seq<Id>>, c: Cluster, i: Id, p: Id, log: seq<LogEntry>, term: nat) returns (d: Cluster)
    requires StaticMembership(peersOf) && Idling(peersOf, c, term) && i in peersOf && p in peersOf && p != i
    requires i in c.nodes && c.nodes[i].currentTerm == term && p in c.nodes && c.nodes[p].log == log
    ensures Idling(peersOf, d, term) && d.proposals == c.proposals && OnlyAt(c, d, p) && Shows(d, p, log, term)
  {
    hide Reaches, Idling, HandleAppendEntries, BuildHeartbeat, StaticMembership;
    MajorityOf(peersOf, i);
    IdlingHas(peersOf, c, term);
    IdlingNode(peersOf, c, term, i);
    IdlingNode(peersOf, c, term, p);
    var n := c.nodes[i];
    AcceptsBeat(c.nodes[p], n.id, n.currentTerm, n.commitIndex);
    d := Delivers(Init(peersOf), c, SendHeartbeat(i, p), p, BuildHeartbeat(n.id, n.currentTerm, n.commitIndex));
    StillIdling(peersOf, c, d, term, p);
  }

  lemma AcceptsBeat(n: Node, id: Id, term: nat, commit: nat)
    requires n.currentTerm <= term
    ensures var m := HandleAppendEntries(n, BuildHeartbeat(id, term, commit)).0;
            m.log == n.log && m.currentTerm == term && m.id == n.id && m.peers == n.peers
  {
    assert Agreeing(n.log, 0, []) == 0;
  }

  ghost predicate ThreeMembers(peersOf: map<Id, seq<Id>>, a: Id, b: Id, c: Id) {
    StaticMembership(peersOf) && a in peersOf && b in peersOf && c in peersOf && a != b && a != c && b != c
  }

  lemma Enough(peersOf: map<Id, seq<Id>>, a: Id, b: Id, c: Id)
    requires ThreeMembers(peersOf, a, b, c)
    ensures 2 * (|peersOf.Keys - {a}| + 1) > |peersOf| && 2 * (|peersOf.Keys - {a, b}| + 1) > |peersOf|
  {
    assert {a, b, c} <= peersOf.Keys;
    Bigger({a, b, c}, peersOf.Keys);
    assert |{a, b, c}| == 3;
    assert |peersOf.Keys - {a}| == |peersOf| - 1 && |peersOf.Keys - {a, b}| == |peersOf| - 2;
  }

  /** The two entries that the leader of term 1 proposes, the entry that the leader of term 2 proposes. */
  const X1 := LogEntry(1, 1, "x", "")
  const X2 := LogEntry(1, 2, "x", "")
  const Y := LogEntry(2, 1, "y", "")

  lemma ProposesTwice(peersOf: map<Id, seq<Id>>, c: Cluster, i: Id) returns (d: Cluster)
    requires Idling(peersOf, c, 1) && Leads(c, i) && Shows(c, i, [], 1)
    ensures Idling(peersOf, d, 1) && Proposal(i, X1, 0) in d.proposals && Proposal(i, X2, 1) in d.proposals
    ensures Shows(d, i, [X1, X2], 1) && OnlyAt(c, d, i)
  {
    hide Idling;
    var c1, q1 := Proposes(peersOf, c, i, "x", [], 1);
    assert [] + [X1] == [X1] && [X1] + [X2] == [X1, X2];
    var q2;
    d, q2 := Proposes(peersOf, c1, i, "x", [X1], 1);
  }

  /** Every node but `a` follows in term 1 with an empty log. */
  ghost predicate Empty(s: Cluster, a: Id) {
    forall p :: p in s.nodes && p != a ==> s.nodes[p].log == [] && s.nodes[p].state == Follower && s.nodes[p].currentTerm == 1
  }

  lemma FirstElection(peersOf: map<Id, seq<Id>>, a: Id, b: Id, c: Id) returns (s: Cluster)
    requires ThreeMembers(peersOf, a, b, c)
    ensures Idling(peersOf, s, 1) && Leads(s, a) && Shows(s, a, [], 1) && Empty(s, a)
  {
    hide Reaches, Idling, StaticMembership, Init;
    Enough(peersOf, a, b, c);
    InitIdles(peersOf);
    s := TakesOver(peersOf, Init(peersOf), a, peersOf.Keys - {a}, 0);
    IdlingHas(peersOf, s, 1);
  }

  lemma InitIdles(peersOf: map<Id, seq<Id>>)
    ensures Idling(peersOf, Init(peersOf), 0) && Init(peersOf).nodes.Keys == peersOf.Keys
    ensures forall p :: p in peersOf ==>
      var n := Init(peersOf).nodes[p]; n.log == [] && n.state == Follower && n.currentTerm == 0
  {
    hide Reaches;
    ReachesItself(Init(peersOf));
    AllIdling(peersOf, Init(peersOf), 0);
  }

  /** Node a leads term 1 and proposes two entries, which it keeps to itself. */
  lemma FirstReign(peersOf: map<Id, seq<Id>>, a: Id, b: Id, c: Id) returns (s: Cluster)
    requires ThreeMembers(peersOf, a, b, c)
    ensures Idling(peersOf, s, 1) && Proposal(a, X1, 0) in s.proposals && Proposal(a, X2, 1) in s.proposals
    ensures Shows(s, a, [X1, X2], 1) && Empty(s, a)
  {
    hide Idling, StaticMembership;
    var s1 := FirstElection(peersOf, a, b, c);
    s := ProposesTwice(peersOf, s1, a);
    IdlingHas(peersOf, s1, 1);
    IdlingHas(peersOf, s, 1);
  }

  /** Node b takes over term 2 without them, and a learns of it. */
  lemma Unseats(peersOf: map<Id, seq<Id>>, s: Cluster, a: Id, b: Id, c: Id) returns (t: Cluster)
    requires ThreeMembers(peersOf, a, b, c) && Idling(peersOf, s, 1) && Shows(s, a, [X1, X2], 1) && Empty(s, a)
    ensures Idling(peersOf, t, 2) && t.proposals == s.proposals
    ensures Leads(t, b) && Shows(t, a, [X1, X2], 2) && Shows(t, b, [], 2) && Shows(t, c, [], 2)
  {
    hide Idling, StaticMembership, Reaches;
    Enough(peersOf, a, b, c);
    IdlingHas(peersOf, s, 1);
    assert s.nodes[b].state == Follower && s.nodes[b].currentTerm == 1;
    var t1 := TakesOver(peersOf, s, b, peersOf.Keys - {a, b}, 1);
    IdlingHas(peersOf, t1, 2);
    assert Shows(t1, b, [], 2) && Shows(t1, c, [], 2);
    t := Beats(peersOf, t1, b, a, [X1, X2], 2);
  }

  /** Then a gives its entries to c, under term 2. */
  lemma SecondReign(peersOf: map<Id, seq<Id>>, a: Id, b: Id, c: Id) returns (s: Cluster)
    requires ThreeMembers(peersOf, a, b, c)
    ensures Idling(peersOf, s, 2) && Proposal(a, X2, 1) in s.proposals
    ensures Leads(s, b) && Shows(s, a, [X1, X2], 2) && Shows(s, b, [], 2) && Shows(s, c, [X1, X2], 2)
  {
    hide Idling, StaticMembership, Reaches, Empty;
    var s1 := FirstReign(peersOf, a, b, c);
    var s2 := Unseats(peersOf, s1, a, b, c);
    var s3 := Replicates(peersOf, s2, Proposal(a, X1, 0), c, [X1, X2], [], 2);
    assert [][..0] + [X1] == [X1] && [X1][..1] + [X2] == [X1, X2];
    s := Replicates(peersOf, s3, Proposal(a, X2, 1), c, [X1, X2], [X1], 2);
  }

  /** The leader of term 2 overwrites a's log with an entry of its own; a then sends its second entry behind it. */
  lemma SendsStale(peersOf: map<Id, seq<Id>>, s: Cluster, a: Id, b: Id, c: Id) returns (t: Cluster)
    requires ThreeMembers(peersOf, a, b, c) && Idling(peersOf, s, 2) && Proposal(a, X2, 1) in s.proposals
    requires Leads(s, b) && Shows(s, a, [X1, X2], 2) && Shows(s, b, [], 2) && Shows(s, c, [X1, X2], 2)
    ensures Idling(peersOf, t, 2) && Shows(t, c, [X1, X2], 2) && Shows(t, b, [Y, X2], 2)
  {
    hide Idling, StaticMembership, Reaches;
    var s1, q := Proposes(peersOf, s, b, "y", [], 2);
    assert q.entry == Y && [] + [Y] == [Y] && [X1, X2][..0] + [Y] == [Y] && [Y][..1] + [X2] == [Y, X2];
    var s2 := Replicates(peersOf, s1, q, a, [Y], [X1, X2], 2);
    t := Replicates(peersOf, s2, Proposal(a, X2, 1), b, [Y], [Y], 2);
  }

  lemma Mismatch(x1: LogEntry, x2: LogEntry, y: LogEntry)
    requires x1 != y
    ensures !LogsMatch([x1, x2], [y, x2])
  {
    var u, v := [x1, x2], [y, x2];
    assert u[1] == v[1];
    assert u[..2][0] != v[..2][0];
  }

  ghost predicate EndsMismatched(c: Cluster, steps: seq<Step>, i: Id, j: Id) {
    && IsRun(c, steps)
    && var s := Exec(c, steps);
       i in s.nodes && j in s.nodes && !LogsMatch(s.nodes[i].log, s.nodes[j].log)
  }

  lemma SafeRunsMatch(peersOf: map<Id, seq<Id>>, steps: seq<Step>, i: Id, j: Id)
    requires StaticMembership(peersOf) && IsSafeRun(Init(peersOf), steps)
    ensures !EndsMismatched(Init(peersOf), steps, i, j)
  {
    LogMatching(peersOf, steps, i, j);
  }

  /** In every cluster of three or more some run breaks Log Matching; by `LogMatching` it has an unchecked send. */
  lemma StaleSendBreaksLogMatching(peersOf: map<Id, seq<Id>>, a: Id, b: Id, c: Id)
    requires ThreeMembers(peersOf, a, b, c)
    ensures exists steps :: EndsMismatched(Init(peersOf), steps, b, c) && !IsSafeRun(Init(peersOf), steps)
  {
    hide IsRun, IsSafeRun, Exec;
    var z := Init(peersOf);
    var s := SecondReign(peersOf, a, b, c);
    var t := SendsStale(peersOf, s, a, b, c);
    Mismatch(Y, X2, X1);
    IdlingHas(peersOf, t, 2);
    var steps :| IsRun(z, steps) && Exec(z, steps) == t;
    assert EndsMismatched(z, steps, b, c);
    if IsSafeRun(z, steps) {
      SafeRunsMatch(peersOf, steps, b, c);
    }
  }
}
