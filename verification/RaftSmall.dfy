/** Log Matching in small clusters. */
module RaftSmall {
  /* With at most two members a leader has every vote, so its log holds the other's, and nothing is ever overwritten:
     every send is safe. With three or more some run breaks Log Matching. */

  import opened Wrappers
  import opened Raft
  import opened RaftCluster
  import opened RaftElection
  import opened RaftLogs
  import opened RaftStaleSend

  // ---- the invariant ----

  ghost predicate Comparable(nodes: map<Id, Node>) {
    forall i, j :: i in nodes && j in nodes ==> nodes[i].log <= nodes[j].log || nodes[j].log <= nodes[i].log
  }

  ghost predicate Below(nodes: map<Id, Node>, log: seq<LogEntry>) {
    exists i :: i in nodes && log <= nodes[i].log
  }

  ghost predicate LedBelow(nodes: map<Id, Node>, leaderLogs: map<nat, seq<LogEntry>>) {
    forall t :: t in leaderLogs ==> Below(nodes, leaderLogs[t])
  }

  ghost predicate Top(nodes: map<Id, Node>, i: Id) {
    i in nodes && forall j :: j in nodes ==> nodes[j].log <= nodes[i].log
  }

  ghost predicate LeadersTop(nodes: map<Id, Node>) {
    forall i :: i in nodes && nodes[i].state == Leader ==> Top(nodes, i)
  }

  /** Somebody else has voted for the node. */
  ghost predicate Backed(ballots: map<Slot, Ballot>, i: Id, term: nat) {
    exists j :: j != i && VotedFor(ballots, j, term, i)
  }

  ghost predicate CandidatesTop(nodes: map<Id, Node>, ballots: map<Slot, Ballot>) {
    forall i :: i in nodes && nodes[i].state == Candidate && Backed(ballots, i, nodes[i].currentTerm) ==> Top(nodes, i)
  }

  ghost predicate LogBounded(log: seq<LogEntry>, term: nat) {
    forall k :: 0 <= k < |log| ==> log[k].term <= term
  }

  ghost predicate NodesBounded(nodes: map<Id, Node>) {
    forall i :: i in nodes ==> LogBounded(nodes[i].log, nodes[i].currentTerm)
  }

  ghost predicate NetBounded(net: set<Message>) {
    forall m :: m in net && m.Append? ==> LogBounded(m.ae.entries, m.ae.term)
  }

  ghost predicate ProposalsBounded(nodes: map<Id, Node>, proposals: set<Proposal>) {
    forall p :: p in proposals && p.leader in nodes ==> p.entry.term <= nodes[p.leader].currentTerm
  }

  /** Terms do not fall along a log. */
  ghost predicate Rising(log: seq<LogEntry>) {
    forall j, k :: 0 <= j < k < |log| ==> log[j].term <= log[k].term
  }

  ghost predicate NodesRise(nodes: map<Id, Node>) {
    forall i :: i in nodes ==> Rising(nodes[i].log)
  }

  ghost predicate SmallInv(c: Cluster) {
    && |c.nodes.Keys| <= 2
    && Comparable(c.nodes) && LedBelow(c.nodes, c.leaderLogs)
    && LeadersTop(c.nodes) && CandidatesTop(c.nodes, c.ballots)
    && NodesBounded(c.nodes) && NetBounded(c.net) && ProposalsBounded(c.nodes, c.proposals)
    && NodesRise(c.nodes)
  }

  lemma OnlyTwo(nodes: map<Id, Node>, i: Id, j: Id)
    requires |nodes.Keys| <= 2 && i in nodes && j in nodes && i != j
    ensures nodes.Keys == {i, j}
  {
    var rest := nodes.Keys - {i, j};
    assert |nodes.Keys| == |{i, j}| + |rest| by {
      assert nodes.Keys == {i, j} + rest;
    }
    assert |{i, j}| == 2;
    assert rest == {};
  }

  /** A majority of at most two is everybody. */
  lemma Everybody(members: set<Id>, voters: set<Id>)
    requires |members| <= 2 && voters <= members && 2 * |voters| > |members|
    ensures voters == members
  {
    var rest := members - voters;
    assert members == voters + rest;
    assert |rest| == |members| - |voters|;
    assert rest == {};
  }

  ghost predicate SameLogs(a: map<Id, Node>, b: map<Id, Node>) {
    a.Keys == b.Keys && forall i :: i in a ==> a[i].log == b[i].log
  }

  lemma SameTop(a: map<Id, Node>, b: map<Id, Node>, i: Id)
    requires SameLogs(a, b) && Top(a, i)
    ensures Top(b, i)
  {
  }

  lemma SameBelow(a: map<Id, Node>, b: map<Id, Node>, leaderLogs: map<nat, seq<LogEntry>>)
    requires LedBelow(a, leaderLogs) && a.Keys == b.Keys && forall i :: i in a ==> a[i].log <= b[i].log
    ensures LedBelow(b, leaderLogs)
  {
    forall t | t in leaderLogs ensures Below(b, leaderLogs[t]) {
      assert Below(a, leaderLogs[t]);
      var i :| i in a && leaderLogs[t] <= a[i].log;
      assert i in b && leaderLogs[t] <= b[i].log;
    }
  }

  lemma SameComparable(a: map<Id, Node>, b: map<Id, Node>)
    requires SameLogs(a, b) && Comparable(a) && NodesRise(a)
    ensures Comparable(b) && NodesRise(b)
  {
    hide Rising;
  }

  // ---- every send is safe ----

  /** A node's log and a leader's log agree as far as both go. */
  lemma AgreeBelow(c: Cluster, i: Id, t: nat, k: nat)
    requires Comparable(c.nodes) && LedBelow(c.nodes, c.leaderLogs)
    requires i in c.nodes && t in c.leaderLogs && k < |c.nodes[i].log| && k < |c.leaderLogs[t]|
    ensures c.nodes[i].log[k] == c.leaderLogs[t][k]
  {
    assert Below(c.nodes, c.leaderLogs[t]);
    var j :| j in c.nodes && c.leaderLogs[t] <= c.nodes[j].log;
    assert c.nodes[i].log <= c.nodes[j].log || c.nodes[j].log <= c.nodes[i].log;
  }

  lemma SmallIsSafe(c: Cluster, s: Step)
    requires LogInv(c) && SmallInv(c) && Enabled(c, s)
    ensures SafeStep(c, s)
  {
    hide Follows;
    if s.SendEntry? {
      var p, log := s.p, c.nodes[s.p.leader].log;
      assert ProposalHolds(c.victories, c.leaderLogs, p);
      if 1 < p.entry.index && p.entry.index - 1 <= |log| {
        AgreeBelow(c, p.leader, p.entry.term, p.entry.index - 2);
      }
    }
  }

  // ---- steps that change no log ----

  lemma NodeKeepsSmall(c: Cluster, i: Id, m: Node)
    requires SmallInv(c) && i in c.nodes && m.log == c.nodes[i].log && c.nodes[i].currentTerm <= m.currentTerm
    requires m.state == Leader ==> Top(c.nodes, i)
    requires m.state == Candidate && Backed(c.ballots, i, m.currentTerm) ==> Top(c.nodes, i)
    ensures SmallInv(c.(nodes := c.nodes[i := m]))
  {
    hide Backed, Rising, Comparable, LedBelow, NodesRise, Top, NetBounded;
    var after := c.nodes[i := m];
    assert SameLogs(c.nodes, after);
    SameBelow(c.nodes, after, c.leaderLogs);
    SameComparable(c.nodes, after);
    forall j | j in c.nodes && Top(c.nodes, j) ensures Top(after, j) {
      SameTop(c.nodes, after, j);
    }
    RolesKeep(c, i, m);
    assert NodesBounded(after) && ProposalsBounded(after, c.proposals) by {
      BoundsKeep(c, i, m);
    }
  }

  lemma RolesKeep(c: Cluster, i: Id, m: Node)
    requires LeadersTop(c.nodes) && CandidatesTop(c.nodes, c.ballots) && i in c.nodes
    requires m.state == Leader ==> Top(c.nodes, i)
    requires m.state == Candidate && Backed(c.ballots, i, m.currentTerm) ==> Top(c.nodes, i)
    requires forall j :: j in c.nodes && Top(c.nodes, j) ==> Top(c.nodes[i := m], j)
    ensures LeadersTop(c.nodes[i := m]) && CandidatesTop(c.nodes[i := m], c.ballots)
  {
    hide Top, Backed;
  }

  lemma BoundsKeep(c: Cluster, i: Id, m: Node)
    requires NodesBounded(c.nodes) && ProposalsBounded(c.nodes, c.proposals) && i in c.nodes
    requires c.nodes[i].currentTerm <= m.currentTerm && LogBounded(m.log, m.currentTerm)
    ensures NodesBounded(c.nodes[i := m]) && ProposalsBounded(c.nodes[i := m], c.proposals)
  {
    hide LogBounded;
  }

  lemma MessageKeepsSmall(c: Cluster, m: Message)
    requires SmallInv(c) && (m.Append? ==> LogBounded(m.ae.entries, m.ae.term))
    ensures SmallInv(c.(net := c.net + {m}))
  {
    hide Comparable, LedBelow, LeadersTop, CandidatesTop, NodesBounded, ProposalsBounded, NodesRise;
  }

  lemma BallotKeepsSmall(c: Cluster, k: Slot, b: Ballot)
    requires SmallInv(c) && k !in c.ballots
    requires (b.candidate in c.nodes && c.nodes[b.candidate].state == Candidate && c.nodes[b.candidate].currentTerm == k.term
              && k.node != b.candidate) ==> Top(c.nodes, b.candidate)
    ensures SmallInv(c.(ballots := c.ballots[k := b]))
  {
    hide Comparable, LedBelow, LeadersTop, Top, NodesBounded, ProposalsBounded, NodesRise, NetBounded;
    var more := c.ballots[k := b];
    forall i | i in c.nodes && c.nodes[i].state == Candidate && Backed(more, i, c.nodes[i].currentTerm) ensures Top(c.nodes, i) {
      var j :| j != i && VotedFor(more, j, c.nodes[i].currentTerm, i);
      if Slot(j, c.nodes[i].currentTerm) != k {
        assert VotedFor(c.ballots, j, c.nodes[i].currentTerm, i);
      }
    }
  }

  lemma TimeoutKeepsSmall(c: Cluster, i: Id)
    requires ElectionInv(c) && SmallInv(c) && Enabled(c, Timeout(i))
    ensures SmallInv(DoTimeout(c, i))
  {
    hide SmallInv;
    var n := StartElection(c.nodes[i]);
    NewTerm(c, i);
    NodeKeepsSmall(c, i, n);
    BallotKeepsSmall(c.(nodes := c.nodes[i := n]), Slot(i, n.currentTerm), Ballot(i, LastLogTerm(n.log), LastLogIndex(n.log)));
  }

  /** Nobody has voted for a node in its next term, or in that term itself. */
  lemma NewTerm(c: Cluster, i: Id)
    requires ElectionInv(c) && i in c.nodes
    ensures c.nodes[i].id == i
    ensures !Backed(c.ballots, i, c.nodes[i].currentTerm + 1) && Slot(i, c.nodes[i].currentTerm + 1) !in c.ballots
  {
    hide RequestsHold, AnswersHold, CountsHold, CandidatesHold, VictoriesHold, LeadersHold;
    forall k | k in c.ballots
      ensures k.node in c.nodes && k.term <= c.nodes[k.node].currentTerm
      ensures c.ballots[k].candidate in c.nodes && k.term <= c.nodes[c.ballots[k].candidate].currentTerm
    {
      assert BallotHolds(c.nodes, k, c.ballots[k]);
    }
  }

  lemma ShorterIsOlder(a: seq<LogEntry>, b: seq<LogEntry>)
    requires a < b && Rising(b) && LastLogIndex(a) == |a| && LastLogIndex(b) == |b|
    ensures !UpToDate(LastLogTerm(a), LastLogIndex(a), LastLogTerm(b), LastLogIndex(b))
  {
    if a != [] {
      assert a[|a| - 1] == b[|a| - 1];
    }
  }

  /** A log at least as recent as a comparable one contains it. */
  lemma RecentContains(a: seq<LogEntry>, b: seq<LogEntry>)
    requires a <= b || b <= a
    requires Rising(b) && LastLogIndex(a) == |a| && LastLogIndex(b) == |b|
    requires UpToDate(LastLogTerm(a), LastLogIndex(a), LastLogTerm(b), LastLogIndex(b))
    ensures b <= a
  {
    hide UpToDate, LastLogIndex, LastLogTerm, Rising;
    if a < b {
      ShorterIsOlder(a, b);
    }
  }

  lemma Asked(c: Cluster, m: Message)
    requires ElectionInv(c) && Enabled(c, AnswerVote(m)) && m.req.candidateId in c.nodes
    requires c.nodes[m.req.candidateId].state == Candidate && c.nodes[m.req.candidateId].currentTerm == m.req.term
    ensures m.dst != m.req.candidateId && m.dst in c.nodes
    ensures var log := c.nodes[m.req.candidateId].log;
            m.req.lastLogTerm == LastLogTerm(log) && m.req.lastLogIndex == LastLogIndex(log)
  {
    hide NodesHold, BallotsHold, AnswersHold, CountsHold, CandidatesHold, VictoriesHold, LeadersHold;
    assert RequestHolds(c.nodes, m.dst, m.req);
  }

  lemma PairTop(nodes: map<Id, Node>, i: Id, v: Id)
    requires |nodes.Keys| <= 2 && i in nodes && v in nodes && i != v && nodes[v].log <= nodes[i].log
    ensures Top(nodes, i)
  {
    OnlyTwo(nodes, i, v);
    forall j | j in nodes ensures nodes[j].log <= nodes[i].log {
      assert j in {i, v};
    }
  }

  /** The granted vote's candidate has a log that contains its voter's. */
  lemma VoteTops(c: Cluster, m: Message)
    requires ElectionInv(c) && LogInv(c) && SmallInv(c) && Enabled(c, AnswerVote(m)) && GrantsVote(c.nodes[m.dst], m.req)
    requires m.req.candidateId in c.nodes
    requires c.nodes[m.req.candidateId].state == Candidate && c.nodes[m.req.candidateId].currentTerm == m.req.term
    ensures m.dst != m.req.candidateId && Top(c.nodes, m.req.candidateId)
  {
    hide ElectionInv, LogInv, Follows, UpToDate, Rising, LastLogIndex, LastLogTerm, LedBelow, LeadersTop, CandidatesTop, NodesBounded,
      NetBounded, ProposalsBounded, Top;
    var i, v := m.req.candidateId, m.dst;
    Asked(c, m);
    InvFollows(c, i);
    InvFollows(c, v);
    LastIndexIsLength(c.leaderLogs, c.nodes[i].log);
    LastIndexIsLength(c.leaderLogs, c.nodes[v].log);
    RecentContains(c.nodes[i].log, c.nodes[v].log);
    PairTop(c.nodes, i, v);
  }

  lemma AnswerVoteKeepsSmall(c: Cluster, m: Message)
    requires ElectionInv(c) && LogInv(c) && SmallInv(c) && Enabled(c, AnswerVote(m))
    ensures SmallInv(DoAnswerVote(c, m))
  {
    hide ElectionInv, LogInv, UpToDate, Backed, LastLogTerm, LastLogIndex;
    var v := m.dst;
    var (n, resp) := HandleRequestVote(c.nodes[v], m.req);
    var i, d := m.req.candidateId, c.(nodes := c.nodes[v := n]);
    NodeKeepsSmall(c, v, n);
    hide SmallInv;
    var k := Slot(v, n.currentTerm);
    if resp.granted && k !in c.ballots {
      if i in d.nodes && d.nodes[i].state == Candidate && d.nodes[i].currentTerm == k.term && v != i {
        VoteTops(c, m);
        assert Top(d.nodes, i);
      }
      var b := Ballot(i, LastLogTerm(n.log), LastLogIndex(n.log));
      BallotKeepsSmall(d, k, b);
      d := d.(ballots := d.ballots[k := b]);
    }
    MessageKeepsSmall(d, VoteResp(v, i, resp));
  }

  lemma SendKeepsSmall(c: Cluster, s: Step)
    requires SmallInv(c) && Enabled(c, s) && (s.SendEntry? || s.SendHeartbeat? || s.AskVote?)
    ensures SmallInv(Apply(c, s))
  {
    match s {
      case SendEntry(p, peer) => MessageKeepsSmall(c, Append(peer, EntryMessage(c.nodes[p.leader], p.entry)));
      case SendHeartbeat(i, peer) =>
        var n := c.nodes[i];
        MessageKeepsSmall(c, Append(peer, BuildHeartbeat(n.id, n.currentTerm, n.commitIndex)));
      case AskVote(i, peer) =>
        var n := c.nodes[i];
        MessageKeepsSmall(c, VoteReq(peer, RequestVote(n.currentTerm, n.id, LastLogIndex(n.log), LastLogTerm(n.log))));
    }
  }

  // ---- winning and leading ----

  /** A winner has another's vote, unless it is alone. */
  lemma WinnerTop(c: Cluster, i: Id)
    requires ElectionInv(c) && SmallInv(c) && Enabled(c, CloseTick(i)) && Wins(c, i)
    ensures Top(c.nodes, i)
  {
    hide ElectionInv, Comparable, LedBelow, LeadersTop, NodesBounded, NetBounded, ProposalsBounded, NodesRise;
    WinnerElected(c, i);
    var n, votes := c.nodes[i], c.ticks[i].votes;
    Everybody(c.nodes.Keys, votes);
    if j :| j in c.nodes && j != i {
      assert VotedFor(c.ballots, j, n.currentTerm, i);
      assert Backed(c.ballots, i, n.currentTerm);
    }
  }

  lemma WinKeepsSmall(c: Cluster, i: Id)
    requires ElectionInv(c) && SmallInv(c) && Enabled(c, CloseTick(i)) && Wins(c, i)
    ensures SmallInv(DoCloseTick(c, i))
  {
    hide ElectionInv, Comparable, LedBelow, Top, Backed, LeadersTop, CandidatesTop, NodesBounded, NetBounded, ProposalsBounded, NodesRise;
    WinnerTop(c, i);
    var n := c.nodes[i];
    NodeKeepsSmall(c, i, BecomeLeader(n));
    LeaderBelow(c.nodes[i := BecomeLeader(n)], c.leaderLogs, i, n.currentTerm);
  }

  /** A leader has everybody's vote. */
  lemma VotesForLeader(c: Cluster, i: Id, j: Id)
    requires ElectionInv(c) && |c.nodes.Keys| <= 2 && i in c.nodes && j in c.nodes && c.nodes[i].state == Leader
    ensures Slot(i, c.nodes[i].currentTerm) in c.victories
    ensures VotedFor(c.ballots, j, c.nodes[i].currentTerm, i) && c.nodes[i].currentTerm <= c.nodes[j].currentTerm
  {
    hide NodesHold, RequestsHold, AnswersHold, CountsHold, CandidatesHold;
    var w := Slot(i, c.nodes[i].currentTerm);
    assert w in c.victories && Elected(c.ballots, c.nodes.Keys, w, c.victories[w]);
    Everybody(c.nodes.Keys, c.victories[w].voters);
    assert VotedFor(c.ballots, j, w.term, i);
    assert BallotHolds(c.nodes, Slot(j, w.term), c.ballots[Slot(j, w.term)]);
  }

  /** Two members cannot both lead, in whatever terms. */
  lemma OneLeader(c: Cluster, i: Id, j: Id)
    requires ElectionInv(c) && |c.nodes.Keys| <= 2 && i in c.nodes && j in c.nodes
    requires c.nodes[i].state == Leader && c.nodes[j].state == Leader
    ensures i == j
  {
    hide ElectionInv;
    VotesForLeader(c, i, j);
    VotesForLeader(c, j, i);
    OneWinnerPerTerm(c, i, j, c.nodes[i].currentTerm);
  }

  lemma VoterReached(c: Cluster, j: Id, term: nat, k: Id)
    requires ElectionInv(c) && VotedFor(c.ballots, j, term, k)
    ensures j in c.nodes && term <= c.nodes[j].currentTerm
  {
    hide NodesHold, RequestsHold, AnswersHold, CountsHold, CandidatesHold, VictoriesHold, LeadersHold;
    assert BallotHolds(c.nodes, Slot(j, term), c.ballots[Slot(j, term)]);
  }

  lemma OwnVote(c: Cluster, k: Id)
    requires ElectionInv(c) && k in c.nodes && c.nodes[k].state == Candidate
    ensures VotedFor(c.ballots, k, c.nodes[k].currentTerm, k)
  {
    hide NodesHold, BallotsHold, RequestsHold, AnswersHold, CountsHold, VictoriesHold, LeadersHold;
  }

  /** While a node leads, no other is a candidate with its vote. */
  lemma NotBoth(c: Cluster, i: Id, k: Id)
    requires ElectionInv(c) && |c.nodes.Keys| <= 2 && i in c.nodes && c.nodes[i].state == Leader
    requires k in c.nodes && c.nodes[k].state == Candidate
    ensures !Backed(c.ballots, k, c.nodes[k].currentTerm)
  {
    hide ElectionInv;
    var t, u := c.nodes[i].currentTerm, c.nodes[k].currentTerm;
    OnlyTwo(c.nodes, i, k);
    VotesForLeader(c, i, k);
    OwnVote(c, k);
    forall j | j != k ensures !VotedFor(c.ballots, j, u, k) {
      if VotedFor(c.ballots, j, u, k) {
        VoterReached(c, j, u, k);
      }
    }
  }

  lemma ProposeKeepsSmall(c: Cluster, i: Id, key: string, val: string)
    requires ElectionInv(c) && SmallInv(c) && Enabled(c, Propose(i, key, val))
    ensures SmallInv(DoPropose(c, i, key, val))
  {
    hide ElectionInv, Backed, Comparable, LedBelow, Top, NodesBounded, NetBounded, ProposalsBounded, NodesRise;
    var n, d := c.nodes[i], DoPropose(c, i, key, val);
    assert Top(c.nodes, i);
    forall k | k in c.nodes && c.nodes[k].state == Candidate ensures !Backed(c.ballots, k, c.nodes[k].currentTerm) {
      NotBoth(c, i, k);
    }
    forall k | k in c.nodes && c.nodes[k].state == Leader ensures k == i {
      OneLeader(c, i, k);
    }
    GrowsTop(c.nodes, i, d.nodes[i]);
    PushRises(c, i, key, val);
    SameBelow(c.nodes, d.nodes, c.leaderLogs);
    LeaderBelow(d.nodes, c.leaderLogs, i, n.currentTerm);
  }

  lemma LeaderBelow(nodes: map<Id, Node>, leaderLogs: map<nat, seq<LogEntry>>, i: Id, t: nat)
    requires LedBelow(nodes, leaderLogs) && i in nodes
    ensures LedBelow(nodes, leaderLogs[t := nodes[i].log])
  {
    var more := leaderLogs[t := nodes[i].log];
    forall u | u in more ensures Below(nodes, more[u]) {
      if u == t {
        assert nodes[i].log <= nodes[i].log;
      } else {
        assert Below(nodes, leaderLogs[u]);
      }
    }
  }

  lemma GrowsTop(nodes: map<Id, Node>, i: Id, m: Node)
    requires Top(nodes, i) && Comparable(nodes) && nodes[i].log <= m.log
    ensures Top(nodes[i := m], i) && Comparable(nodes[i := m])
  {
    forall j | j in nodes ensures nodes[i := m][j].log <= m.log {
      assert nodes[j].log <= nodes[i].log;
    }
  }

  /** A leader's entry has the highest term of its log. */
  lemma PushRises(c: Cluster, i: Id, key: string, val: string)
    requires NodesBounded(c.nodes) && NodesRise(c.nodes) && ProposalsBounded(c.nodes, c.proposals) && Enabled(c, Propose(i, key, val))
    ensures var d := DoPropose(c, i, key, val);
            NodesBounded(d.nodes) && NodesRise(d.nodes) && ProposalsBounded(d.nodes, d.proposals)
  {
    var n, d := c.nodes[i], DoPropose(c, i, key, val);
    assert Rising(n.log) && LogBounded(n.log, n.currentTerm);
    assert Rising(d.nodes[i].log) && LogBounded(d.nodes[i].log, n.currentTerm);
    hide Rising, LogBounded;
  }

  // ---- accepting entries ----

  /** A log inside the same log as a longer one is its prefix. */
  lemma PrefixWithin(log: seq<LogEntry>, lead: seq<LogEntry>, whole: seq<LogEntry>)
    requires lead <= whole && (log <= whole || whole <= log) && |log| < |lead|
    ensures log + [lead[|log|]] <= lead
  {
    assert forall q :: 0 <= q < |log| ==> log[q] == whole[q] == lead[q];
  }

  /** What a node writes is an entry of a leader's log. */
  lemma WrittenEntry(c: Cluster, m: Message)
    requires AppendsCarry(c.net, c.leaderLogs) && Enabled(c, AnswerAppend(m)) && Writes(c.nodes[m.dst], m.ae)
    ensures var ae, log := m.ae, c.nodes[m.dst].log;
            && |ae.entries| == 1 && ae.entries[0].term in c.leaderLogs && ae.prevLogIndex <= |log|
            && ae.prevLogIndex < |c.leaderLogs[ae.entries[0].term]|
            && c.leaderLogs[ae.entries[0].term][ae.prevLogIndex] == ae.entries[0]
            && (ae.prevLogIndex < |log| ==> log[ae.prevLogIndex].term != ae.entries[0].term)
            && MergeEntries(log, ae.prevLogIndex, ae.entries) == log[..ae.prevLogIndex] + ae.entries
  {
    assert AppendCarries(c.leaderLogs, m.ae);
    assert m.ae.entries[0..] == m.ae.entries;
  }

  lemma Holder(nodes: map<Id, Node>, leaderLogs: map<nat, seq<LogEntry>>, t: nat) returns (j: Id)
    requires LedBelow(nodes, leaderLogs) && t in leaderLogs
    ensures j in nodes && leaderLogs[t] <= nodes[j].log
  {
    assert Below(nodes, leaderLogs[t]);
    j :| j in nodes && leaderLogs[t] <= nodes[j].log;
  }

  /** It is written at the log's end, and another node's log holds the result. */
  lemma WritesAtEnd(c: Cluster, m: Message) returns (j: Id)
    requires LogInv(c) && SmallInv(c) && Enabled(c, AnswerAppend(m)) && Writes(c.nodes[m.dst], m.ae)
    ensures var log := MergeEntries(c.nodes[m.dst].log, m.ae.prevLogIndex, m.ae.entries);
            && j in c.nodes && j != m.dst && c.nodes[m.dst].log <= log <= c.nodes[j].log
  {
    assert Comparable(c.nodes) && LedBelow(c.nodes, c.leaderLogs);
    WrittenEntry(c, m);
    hide LogInv, SmallInv, Enabled, Writes, MergeEntries, LedBelow;
    var log, at, t := c.nodes[m.dst].log, m.ae.prevLogIndex, m.ae.entries[0].term;
    if at < |log| {
      AgreeBelow(c, m.dst, t, at);
    }
    j := Holder(c.nodes, c.leaderLogs, t);
    PrefixWithin(log, c.leaderLogs[t], c.nodes[j].log);
    assert log[..at] == log && m.ae.entries == [c.leaderLogs[t][|log|]];
  }

  lemma WrittenBounded(c: Cluster, m: Message)
    requires NodesBounded(c.nodes) && NetBounded(c.net) && Enabled(c, AnswerAppend(m)) && Writes(c.nodes[m.dst], m.ae)
    ensures LogBounded(MergeEntries(c.nodes[m.dst].log, m.ae.prevLogIndex, m.ae.entries), m.ae.term)
  {
    var n := c.nodes[m.dst];
    assert LogBounded(n.log, n.currentTerm) && LogBounded(m.ae.entries, m.ae.term);
    hide NodesBounded, NetBounded;
  }

  lemma AnswerAppendKeepsSmall(c: Cluster, m: Message)
    requires LogInv(c) && NetSafe(c.net, c.leaderLogs) && SmallInv(c) && Enabled(c, AnswerAppend(m))
    ensures SmallInv(DoAnswerAppend(c, m))
  {
    hide LogInv, NetSafe;
    var v, n := m.dst, c.nodes[m.dst];
    var after := HandleAppendEntries(n, m.ae).0;
    if Writes(n, m.ae) {
      var j := WritesAtEnd(c, m);
      WrittenBounded(c, m);
      hide HandleAppendEntries, MergeEntries;
      Handled(n, m.ae);
      LongerKeeps(c, v, j, after);
    } else {
      Unwritten(n, m.ae);
      hide HandleAppendEntries;
      assert Top(c.nodes, v) || !(after.state == Leader);
      NodeKeepsSmall(c, v, after);
    }
  }

  lemma Handled(n: Node, ae: AppendEntries)
    requires Writes(n, ae)
    ensures var m := HandleAppendEntries(n, ae).0;
            m.log == MergeEntries(n.log, ae.prevLogIndex, ae.entries) && m.state == Follower && m.currentTerm == ae.term
  {
  }

  lemma Unwritten(n: Node, ae: AppendEntries)
    requires !Writes(n, ae)
    ensures var m := HandleAppendEntries(n, ae).0;
            m.log == n.log && n.currentTerm <= m.currentTerm && (m.state == Follower || m == n)
  {
  }

  /** A follower's log grows within the other node's. */
  lemma LongerKeeps(c: Cluster, v: Id, j: Id, m: Node)
    requires SmallInv(c) && v in c.nodes && j in c.nodes && j != v && m.state == Follower
    requires c.nodes[v].log <= m.log <= c.nodes[j].log && c.nodes[v].currentTerm <= m.currentTerm && LogBounded(m.log, m.currentTerm)
    ensures SmallInv(c.(nodes := c.nodes[v := m]))
  {
    hide Backed, Comparable, LedBelow, Top, NodesBounded, ProposalsBounded, NetBounded, LogBounded, Rising, LeadersTop, CandidatesTop, NodesRise;
    var after := c.nodes[v := m];
    OnlyTwo(c.nodes, v, j);
    assert after.Keys == {v, j};
    PairTop(after, j, v);
    SameBelow(c.nodes, after, c.leaderLogs);
    PairComparable(after, j, v);
    PairRoles(after, c.ballots, j, v);
    LongerRises(c.nodes, v, j, m);
    BoundsKeep(c, v, m);
  }

  lemma PairRoles(nodes: map<Id, Node>, ballots: map<Slot, Ballot>, i: Id, v: Id)
    requires nodes.Keys == {i, v} && Top(nodes, i) && nodes[v].state == Follower
    ensures LeadersTop(nodes) && CandidatesTop(nodes, ballots)
  {
    hide Top, Backed;
    assert forall j :: j in nodes ==> j == i || j == v;
  }

  lemma LongerRises(nodes: map<Id, Node>, v: Id, j: Id, m: Node)
    requires NodesRise(nodes) && j in nodes && m.log <= nodes[j].log
    ensures NodesRise(nodes[v := m])
  {
    hide Rising;
    RisesWithin(m.log, nodes[j].log);
  }

  lemma PairComparable(nodes: map<Id, Node>, i: Id, v: Id)
    requires nodes.Keys == {i, v} && nodes[v].log <= nodes[i].log
    ensures Comparable(nodes)
  {
    forall j, k | j in nodes && k in nodes ensures nodes[j].log <= nodes[k].log || nodes[k].log <= nodes[j].log {
      assert j in {i, v} && k in {i, v};
    }
  }

  lemma RisesWithin(a: seq<LogEntry>, b: seq<LogEntry>)
    requires a <= b && Rising(b)
    ensures Rising(a)
  {
    assert forall k :: 0 <= k < |a| ==> a[k] == b[k];
  }

  // ---- every run ----

  lemma StepKeepsSmall(c: Cluster, s: Step)
    requires ElectionInv(c) && LogInv(c) && NetSafe(c.net, c.leaderLogs) && SmallInv(c) && Enabled(c, s)
    ensures SmallInv(Apply(c, s))
  {
    hide ElectionInv, LogInv, NetSafe, Comparable, LedBelow, LeadersTop, CandidatesTop, NodesBounded, NetBounded, ProposalsBounded,
      NodesRise, HandleRequestVote, HandleAppendEntries;
    match s
    case Timeout(i) => TimeoutKeepsSmall(c, i);
    case AnswerVote(m) => AnswerVoteKeepsSmall(c, m);
    case CloseTick(i) => if Wins(c, i) { WinKeepsSmall(c, i); }
    case Propose(i, key, val) => ProposeKeepsSmall(c, i, key, val);
    case AnswerAppend(m) => AnswerAppendKeepsSmall(c, m);
    case Commit(p) => CommitKeepsSmall(c, p);
    case SendEntry(_, _) => SendKeepsSmall(c, s);
    case SendHeartbeat(_, _) => SendKeepsSmall(c, s);
    case AskVote(_, _) => SendKeepsSmall(c, s);
    case _ =>
  }

  lemma CommitKeepsSmall(c: Cluster, p: Proposal)
    requires SmallInv(c) && Enabled(c, Commit(p))
    ensures SmallInv(DoCommit(c, p))
  {
    hide Comparable, LedBelow, CandidatesTop, NodesBounded, NetBounded, ProposalsBounded, NodesRise, Top;
    NodeKeepsSmall(c, p.leader, c.nodes[p.leader].(commitIndex := p.entry.index));
  }

  lemma {:induction false} SmallRunIsSafe(c: Cluster, steps: seq<Step>)
    requires ElectionInv(c) && LogInv(c) && NetSafe(c.net, c.leaderLogs) && SmallInv(c) && IsRun(c, steps)
    ensures IsSafeRun(c, steps)
    decreases |steps|
  {
    hide ElectionInv, LogInv, NetSafe, SmallInv, Enabled, Apply, SafeStep, HarmlessStep;
    if steps != [] {
      SmallIsSafe(c, steps[0]);
      SafeIsHarmless(c, steps[0]);
      SafeStepKeeps(c, steps[0]);
      StepKeepsSmall(c, steps[0]);
      StepKeepsElectionInv(c, steps[0]);
      StepKeepsLogInv(c, steps[0]);
      SmallRunIsSafe(Apply(c, steps[0]), steps[1..]);
    }
  }

  lemma InitSmall(peersOf: map<Id, seq<Id>>)
    requires |peersOf| <= 2
    ensures SmallInv(Init(peersOf))
  {
    assert Init(peersOf).nodes.Keys == peersOf.Keys;
  }

  // ---- all runs ----

  /** The logs at the end of a run are held in it. */
  lemma {:induction false} EndHeld(c: Cluster, steps: seq<Step>, i: Id)
    requires IsRun(c, steps) && i in Exec(c, steps).nodes
    ensures Held(c, steps, Exec(c, steps).nodes[i].log)
    decreases |steps|
  {
    hide Enabled, Apply;
    if steps != [] {
      EndHeld(Apply(c, steps[0]), steps[1..], i);
    }
  }

  lemma SmallMatches(peersOf: map<Id, seq<Id>>, steps: seq<Step>)
    requires StaticMembership(peersOf) && |peersOf| <= 2 && IsRun(Init(peersOf), steps)
    ensures AlwaysMatches(Init(peersOf), steps)
  {
    hide ElectionInv, LogInv, SmallInv, StaticMembership, AlwaysMatches;
    InitElectionInv(peersOf);
    InitLogInv(peersOf);
    InitSmall(peersOf);
    SmallRunIsSafe(Init(peersOf), steps);
    SafeRunIsHarmless(Init(peersOf), steps);
    LogMatchingIff(peersOf, steps);
  }

  lemma LargeBreaks(peersOf: map<Id, seq<Id>>) returns (steps: seq<Step>)
    requires StaticMembership(peersOf) && |peersOf| > 2
    ensures IsRun(Init(peersOf), steps) && !AlwaysMatches(Init(peersOf), steps)
  {
    hide IsRun, Exec, Held, LogsMatch, StaticMembership, Init, IsSafeRun;
    var a, b, c := ThreeOf(peersOf.Keys);
    StaleSendBreaksLogMatching(peersOf, a, b, c);
    steps :| EndsMismatched(Init(peersOf), steps, b, c);
    EndHeld(Init(peersOf), steps, b);
    EndHeld(Init(peersOf), steps, c);
  }

  lemma ThreeOf<T>(s: set<T>) returns (a: T, b: T, c: T)
    requires |s| > 2
    ensures a in s && b in s && c in s && a != b && a != c && b != c
  {
    a :| a in s;
    assert |s - {a}| == |s| - 1;
    b :| b in s - {a};
    assert |s - {a} - {b}| == |s| - 2;
    c :| c in s - {a} - {b};
  }

  /** In a static cluster every run, whatever it sends, keeps Log Matching exactly if there are at most two members. */
  lemma EveryRunMatchesIff(peersOf: map<Id, seq<Id>>)
    requires StaticMembership(peersOf)
    ensures (forall steps :: IsRun(Init(peersOf), steps) ==> AlwaysMatches(Init(peersOf), steps)) <==> |peersOf| <= 2
  {
    hide StaticMembership, IsRun, AlwaysMatches;
    if |peersOf| <= 2 {
      forall steps | IsRun(Init(peersOf), steps) ensures AlwaysMatches(Init(peersOf), steps) {
        SmallMatches(peersOf, steps);
      }
    } else {
      var steps := LargeBreaks(peersOf);
    }
  }
}
