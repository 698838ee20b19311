/** Election Safety. */
module RaftElection {
  import opened Wrappers
  import opened Raft
  import opened RaftCluster

  // ---- the invariant ----

  ghost predicate NodesHold(nodes: map<Id, Node>) {
    forall i :: i in nodes ==> nodes[i].id == i && Configured(nodes[i].peers, i, nodes.Keys)
  }

  ghost predicate VotedFor(ballots: map<Slot, Ballot>, voter: Id, term: nat, candidate: Id) {
    Slot(voter, term) in ballots && ballots[Slot(voter, term)].candidate == candidate
  }

  /** A node's vote in its current term is the one recorded, and a candidate's log is at least as
      recent as its voter's log was. */
  ghost predicate BallotHolds(nodes: map<Id, Node>, k: Slot, b: Ballot) {
    && k.node in nodes && b.candidate in nodes
    && k.term <= nodes[k.node].currentTerm && k.term <= nodes[b.candidate].currentTerm
    && (k.term == nodes[k.node].currentTerm ==> nodes[k.node].votedFor == Some(b.candidate))
    && (nodes[b.candidate].state == Candidate && k.term == nodes[b.candidate].currentTerm ==>
          UpToDate(LastLogTerm(nodes[b.candidate].log), LastLogIndex(nodes[b.candidate].log), b.lastTerm, b.lastIndex))
  }

  ghost predicate BallotsHold(nodes: map<Id, Node>, ballots: map<Slot, Ballot>) {
    forall k :: k in ballots ==> BallotHolds(nodes, k, ballots[k])
  }

  ghost predicate RequestHolds(nodes: map<Id, Node>, dst: Id, req: RequestVote) {
    && req.candidateId in nodes && dst in nodes && dst != req.candidateId
    && req.term <= nodes[req.candidateId].currentTerm
    && (nodes[req.candidateId].state == Candidate && req.term == nodes[req.candidateId].currentTerm ==>
          && req.lastLogTerm == LastLogTerm(nodes[req.candidateId].log)
          && req.lastLogIndex == LastLogIndex(nodes[req.candidateId].log))
  }

  ghost predicate RequestsHold(nodes: map<Id, Node>, net: set<Message>) {
    forall m :: m in net && m.VoteReq? ==> RequestHolds(nodes, m.dst, m.req)
  }

  ghost predicate AnswersHold(net: set<Message>, ballots: map<Slot, Ballot>) {
    forall m :: m in net && m.VoteResp? && m.resp.granted ==> VotedFor(ballots, m.src, m.resp.term, m.dst)
  }

  ghost predicate CountHolds(ballots: map<Slot, Ballot>, i: Id, n: Node, t: Tick) {
    t.Collecting? ==>
      && (forall v :: v in t.votes && v != i ==> VotedFor(ballots, v, t.term, i))
      && (n.state == Candidate ==> n.currentTerm == t.term)
  }

  ghost predicate CountsHold(nodes: map<Id, Node>, ticks: map<Id, Tick>, ballots: map<Slot, Ballot>) {
    ticks.Keys == nodes.Keys && forall i :: i in nodes ==> CountHolds(ballots, i, nodes[i], ticks[i])
  }

  ghost predicate CandidatesHold(nodes: map<Id, Node>, ballots: map<Slot, Ballot>, victories: map<Slot, Victory>) {
    forall i :: i in nodes && nodes[i].state == Candidate ==>
      VotedFor(ballots, i, nodes[i].currentTerm, i) && Slot(i, nodes[i].currentTerm) !in victories
  }

  ghost predicate Elected(ballots: map<Slot, Ballot>, members: set<Id>, w: Slot, v: Victory) {
    && w.node in members && v.voters <= members && 2 * |v.voters| > |members|
    && forall p :: p in v.voters ==>
         && VotedFor(ballots, p, w.term, w.node)
         && UpToDate(v.lastTerm, v.lastIndex, ballots[Slot(p, w.term)].lastTerm, ballots[Slot(p, w.term)].lastIndex)
  }

  ghost predicate VictoriesHold(nodes: map<Id, Node>, ballots: map<Slot, Ballot>, victories: map<Slot, Victory>) {
    forall w :: w in victories ==>
      Elected(ballots, nodes.Keys, w, victories[w]) && w.term <= nodes[w.node].currentTerm
  }

  ghost predicate LeadersHold(nodes: map<Id, Node>, victories: map<Slot, Victory>) {
    forall i :: i in nodes && nodes[i].state == Leader ==> Slot(i, nodes[i].currentTerm) in victories
  }

  ghost predicate ElectionInv(c: Cluster) {
    && NodesHold(c.nodes)
    && BallotsHold(c.nodes, c.ballots)
    && RequestsHold(c.nodes, c.net)
    && AnswersHold(c.net, c.ballots)
    && CountsHold(c.nodes, c.ticks, c.ballots)
    && CandidatesHold(c.nodes, c.ballots, c.victories)
    && VictoriesHold(c.nodes, c.ballots, c.victories)
    && LeadersHold(c.nodes, c.victories)
  }

  // ---- quorums ----

  lemma DistinctSize<T>(s: seq<T>)
    requires Distinct(s)
    ensures |set x | x in s| == |s|
  {
    if s != [] {
      DistinctSize(s[1..]);
      assert (set x | x in s) == {s[0]} + set x | x in s[1..];
    }
  }

  lemma Bigger<T>(a: set<T>, b: set<T>)
    requires a <= b
    ensures |a| <= |b|
  {
    assert b == a + (b - a);
  }

  lemma QuorumsMeet<T>(all: set<T>, a: set<T>, b: set<T>)
    requires a <= all && b <= all
    requires 2 * |a| > |all| && 2 * |b| > |all|
    ensures a * b != {}
  {
    Bigger(a + b, all);
    assert |a + b| == |a| + |b| - |a * b|;
  }

  lemma QuorumSize(nodes: map<Id, Node>, i: Id)
    requires NodesHold(nodes) && i in nodes
    ensures 2 * Majority(nodes[i]) > |nodes.Keys|
  {
    var peers := nodes[i].peers;
    assert Configured(peers, i, nodes.Keys);
    DistinctSize(peers);
    assert (set p | p in peers) == nodes.Keys - {i};
  }

  /** Two winners of one term would share a voter, and nobody votes twice in a term. */
  lemma OneWinnerPerTerm(c: Cluster, i: Id, j: Id, term: nat)
    requires ElectionInv(c)
    requires Slot(i, term) in c.victories && Slot(j, term) in c.victories
    ensures i == j
  {
    var a, b := c.victories[Slot(i, term)], c.victories[Slot(j, term)];
    assert Elected(c.ballots, c.nodes.Keys, Slot(i, term), a) && Elected(c.ballots, c.nodes.Keys, Slot(j, term), b);
    QuorumsMeet(c.nodes.Keys, a.voters, b.voters);
    var v :| v in a.voters * b.voters;
    assert VotedFor(c.ballots, v, term, i) && VotedFor(c.ballots, v, term, j);
  }

  // ---- changing one node ----

  /** What an election sees of a node's change. */
  ghost predicate Evolves(n: Node, m: Node) {
    && m.id == n.id && m.peers == n.peers && n.currentTerm <= m.currentTerm
    && (m.currentTerm == n.currentTerm && n.votedFor.Some? ==> m.votedFor == n.votedFor)
    && (m.state == Candidate ==> m.currentTerm == n.currentTerm && n.state == Candidate && m.log == n.log)
  }

  lemma NodeKeepsNodes(nodes: map<Id, Node>, i: Id, m: Node)
    requires NodesHold(nodes) && i in nodes && m.id == nodes[i].id && m.peers == nodes[i].peers
    ensures NodesHold(nodes[i := m])
  {
    var after := nodes[i := m];
    assert after.Keys == nodes.Keys;
    forall j | j in after ensures after[j].id == j && Configured(after[j].peers, j, after.Keys) {
      assert Configured(nodes[j].peers, j, nodes.Keys);
    }
  }

  lemma NodeKeepsBallots(nodes: map<Id, Node>, ballots: map<Slot, Ballot>, i: Id, m: Node)
    requires BallotsHold(nodes, ballots) && i in nodes && Evolves(nodes[i], m)
    ensures BallotsHold(nodes[i := m], ballots)
  {
    forall k | k in ballots ensures BallotHolds(nodes[i := m], k, ballots[k]) {
      assert BallotHolds(nodes, k, ballots[k]);
    }
  }

  lemma NodeKeepsRequests(nodes: map<Id, Node>, net: set<Message>, i: Id, m: Node)
    requires RequestsHold(nodes, net) && i in nodes && Evolves(nodes[i], m)
    ensures RequestsHold(nodes[i := m], net)
  {
    forall r | r in net && r.VoteReq? ensures RequestHolds(nodes[i := m], r.dst, r.req) {
      assert RequestHolds(nodes, r.dst, r.req);
    }
  }

  lemma NodeKeepsVictories(nodes: map<Id, Node>, ballots: map<Slot, Ballot>, victories: map<Slot, Victory>, i: Id, m: Node)
    requires VictoriesHold(nodes, ballots, victories) && i in nodes && nodes[i].currentTerm <= m.currentTerm
    ensures VictoriesHold(nodes[i := m], ballots, victories)
  {
    assert nodes[i := m].Keys == nodes.Keys;
  }

  lemma NodeKeepsCounts(nodes: map<Id, Node>, ticks: map<Id, Tick>, ballots: map<Slot, Ballot>, i: Id, m: Node)
    requires CountsHold(nodes, ticks, ballots) && i in nodes && CountHolds(ballots, i, m, ticks[i])
    ensures CountsHold(nodes[i := m], ticks, ballots)
  {
    var after := nodes[i := m];
    forall j | j in after ensures CountHolds(ballots, j, after[j], ticks[j]) {
      assert CountHolds(ballots, j, nodes[j], ticks[j]);
    }
  }

  lemma NodeKeepsRoles(nodes: map<Id, Node>, ballots: map<Slot, Ballot>, victories: map<Slot, Victory>, i: Id, m: Node)
    requires CandidatesHold(nodes, ballots, victories) && LeadersHold(nodes, victories)
    requires i in nodes && Evolves(nodes[i], m)
    requires m.state == Leader ==> Slot(i, m.currentTerm) in victories
    ensures CandidatesHold(nodes[i := m], ballots, victories) && LeadersHold(nodes[i := m], victories)
  {
  }

  lemma NodeKeeps(c: Cluster, i: Id, m: Node)
    requires ElectionInv(c) && i in c.nodes && Evolves(c.nodes[i], m)
    requires m.state == Leader ==> Slot(i, m.currentTerm) in c.victories
    ensures ElectionInv(c.(nodes := c.nodes[i := m]))
  {
    hide NodesHold, BallotsHold, RequestsHold, AnswersHold, VictoriesHold, CandidatesHold, LeadersHold;
    assert CountHolds(c.ballots, i, c.nodes[i], c.ticks[i]);
    NodeKeepsRoles(c.nodes, c.ballots, c.victories, i, m);
    NodeKeepsNodes(c.nodes, i, m);
    NodeKeepsBallots(c.nodes, c.ballots, i, m);
    NodeKeepsRequests(c.nodes, c.net, i, m);
    NodeKeepsVictories(c.nodes, c.ballots, c.victories, i, m);
    NodeKeepsCounts(c.nodes, c.ticks, c.ballots, i, m);
  }

  // ---- adding a message, a ballot, a victory; moving a ticker ----

  lemma MessageKeeps(c: Cluster, m: Message)
    requires ElectionInv(c)
    requires m.VoteReq? ==> RequestHolds(c.nodes, m.dst, m.req)
    requires m.VoteResp? && m.resp.granted ==> VotedFor(c.ballots, m.src, m.resp.term, m.dst)
    ensures ElectionInv(c.(net := c.net + {m}))
  {
  }

  lemma TickKeeps(c: Cluster, i: Id, t: Tick)
    requires ElectionInv(c) && i in c.nodes && CountHolds(c.ballots, i, c.nodes[i], t)
    ensures ElectionInv(c.(ticks := c.ticks[i := t]))
  {
    hide NodesHold, BallotsHold, RequestsHold, AnswersHold, VictoriesHold, CandidatesHold, LeadersHold, CountHolds;
  }

  ghost predicate Extends(a: map<Slot, Ballot>, b: map<Slot, Ballot>) {
    forall k :: k in a ==> k in b && b[k] == a[k]
  }

  lemma BallotKeepsVictories(nodes: map<Id, Node>, ballots: map<Slot, Ballot>, more: map<Slot, Ballot>, victories: map<Slot, Victory>)
    requires VictoriesHold(nodes, ballots, victories) && Extends(ballots, more)
    ensures VictoriesHold(nodes, more, victories)
  {
    forall w | w in victories ensures Elected(more, nodes.Keys, w, victories[w]) {
      assert Elected(ballots, nodes.Keys, w, victories[w]);
      forall p | p in victories[w].voters ensures VotedFor(more, p, w.term, w.node) {
        assert VotedFor(ballots, p, w.term, w.node);
      }
    }
  }

  lemma BallotKeepsCounts(nodes: map<Id, Node>, ticks: map<Id, Tick>, ballots: map<Slot, Ballot>, more: map<Slot, Ballot>)
    requires CountsHold(nodes, ticks, ballots) && Extends(ballots, more)
    ensures CountsHold(nodes, ticks, more)
  {
    forall i | i in nodes ensures CountHolds(more, i, nodes[i], ticks[i]) {
      assert CountHolds(ballots, i, nodes[i], ticks[i]);
    }
  }

  lemma BallotKeeps(c: Cluster, k: Slot, b: Ballot)
    requires ElectionInv(c) && k !in c.ballots && BallotHolds(c.nodes, k, b)
    ensures ElectionInv(c.(ballots := c.ballots[k := b]))
  {
    hide NodesHold, RequestsHold, VictoriesHold, LeadersHold, CountsHold;
    var more := c.ballots[k := b];
    BallotKeepsVictories(c.nodes, c.ballots, more, c.victories);
    BallotKeepsCounts(c.nodes, c.ticks, c.ballots, more);
  }

  lemma VictoryKeeps(c: Cluster, i: Id, v: Victory)
    requires ElectionInv(c) && i in c.nodes && c.nodes[i].state != Candidate
    requires Elected(c.ballots, c.nodes.Keys, Slot(i, c.nodes[i].currentTerm), v)
    ensures ElectionInv(c.(victories := c.victories[Slot(i, c.nodes[i].currentTerm) := v]))
  {
    hide BallotsHold, RequestsHold, AnswersHold, CountsHold, Elected;
  }

  lemma HistoryKeeps(c: Cluster, proposals: set<Proposal>, leaderLogs: map<nat, seq<LogEntry>>)
    requires ElectionInv(c)
    ensures ElectionInv(c.(proposals := proposals, leaderLogs := leaderLogs))
  {
  }

  // ---- every step ----

  /** A new candidacy is in a term that nobody has asked for or voted in on the node's behalf. */
  lemma CandidacyKeepsBallots(c: Cluster, i: Id, b: Ballot)
    requires BallotsHold(c.nodes, c.ballots) && i in c.nodes && c.nodes[i].id == i
    requires b == Ballot(i, LastLogTerm(c.nodes[i].log), LastLogIndex(c.nodes[i].log))
    ensures var n := StartElection(c.nodes[i]);
            Slot(i, n.currentTerm) !in c.ballots && BallotsHold(c.nodes[i := n], c.ballots[Slot(i, n.currentTerm) := b])
  {
    var n := StartElection(c.nodes[i]);
    var k := Slot(i, n.currentTerm);
    var more := c.ballots[k := b];
    assert k !in c.ballots by {
      assert k in c.ballots ==> BallotHolds(c.nodes, k, c.ballots[k]);
    }
    forall j | j in more ensures BallotHolds(c.nodes[i := n], j, more[j]) {
      assert j in c.ballots ==> BallotHolds(c.nodes, j, c.ballots[j]);
    }
  }

  lemma CandidacyKeepsRequests(nodes: map<Id, Node>, net: set<Message>, i: Id)
    requires RequestsHold(nodes, net) && i in nodes
    ensures RequestsHold(nodes[i := StartElection(nodes[i])], net)
  {
    forall r | r in net && r.VoteReq? ensures RequestHolds(nodes[i := StartElection(nodes[i])], r.dst, r.req) {
      assert RequestHolds(nodes, r.dst, r.req);
    }
  }

  lemma WonTermReached(nodes: map<Id, Node>, ballots: map<Slot, Ballot>, victories: map<Slot, Victory>, w: Slot)
    requires VictoriesHold(nodes, ballots, victories) && w in victories
    ensures w.node in nodes && w.term <= nodes[w.node].currentTerm
  {
    assert Elected(ballots, nodes.Keys, w, victories[w]);
  }

  lemma CandidacyKeepsRoles(c: Cluster, i: Id, more: map<Slot, Ballot>)
    requires CandidatesHold(c.nodes, c.ballots, c.victories) && LeadersHold(c.nodes, c.victories)
    requires VictoriesHold(c.nodes, c.ballots, c.victories)
    requires i in c.nodes && Extends(c.ballots, more) && VotedFor(more, i, c.nodes[i].currentTerm + 1, i)
    ensures var after := c.nodes[i := StartElection(c.nodes[i])];
            CandidatesHold(after, more, c.victories) && LeadersHold(after, c.victories)
  {
    var k := Slot(i, c.nodes[i].currentTerm + 1);
    assert k !in c.victories by {
      if k in c.victories {
        WonTermReached(c.nodes, c.ballots, c.victories, k);
      }
    }
    forall j | j in c.nodes && j != i && c.nodes[j].state == Candidate
      ensures VotedFor(more, j, c.nodes[j].currentTerm, j)
    {
      assert VotedFor(c.ballots, j, c.nodes[j].currentTerm, j);
    }
  }

  lemma TimeoutKeeps(c: Cluster, i: Id)
    requires ElectionInv(c) && Enabled(c, Timeout(i))
    ensures ElectionInv(DoTimeout(c, i))
  {
    hide BallotsHold, RequestsHold, VictoriesHold, CandidatesHold, LeadersHold, CountsHold;
    var n := StartElection(c.nodes[i]);
    var k := Slot(i, n.currentTerm);
    var b := Ballot(i, LastLogTerm(n.log), LastLogIndex(n.log));
    var more := c.ballots[k := b];
    CandidacyKeepsBallots(c, i, b);
    CandidacyKeepsRequests(c.nodes, c.net, i);
    CandidacyKeepsRoles(c, i, more);
    NodeKeepsNodes(c.nodes, i, n);
    BallotKeepsVictories(c.nodes, c.ballots, more, c.victories);
    NodeKeepsVictories(c.nodes, more, c.victories, i, n);
    BallotKeepsCounts(c.nodes, c.ticks, c.ballots, more);
    NodeKeepsCounts(c.nodes, c.ticks, more, i, n);
  }

  lemma AskVoteKeeps(c: Cluster, i: Id, peer: Id)
    requires ElectionInv(c) && Enabled(c, AskVote(i, peer))
    ensures ElectionInv(DoAskVote(c, i, peer))
  {
    var n := c.nodes[i];
    assert Configured(n.peers, i, c.nodes.Keys);
    MessageKeeps(c, VoteReq(peer, RequestVote(n.currentTerm, n.id, LastLogIndex(n.log), LastLogTerm(n.log))));
  }

  lemma AnswerVoteKeeps(c: Cluster, m: Message)
    requires ElectionInv(c) && Enabled(c, AnswerVote(m))
    ensures ElectionInv(DoAnswerVote(c, m))
  {
    hide NodesHold, AnswersHold, CountsHold, CandidatesHold, VictoriesHold;
    var (n, resp) := HandleRequestVote(c.nodes[m.dst], m.req);
    assert RequestHolds(c.nodes, m.dst, m.req);
    NodeKeeps(c, m.dst, n);
    var d := c.(nodes := c.nodes[m.dst := n]);
    var k := Slot(m.dst, n.currentTerm);
    if k in c.ballots {
      assert BallotHolds(d.nodes, k, d.ballots[k]);
    } else if resp.granted {
      assert RequestHolds(d.nodes, m.dst, m.req);
      var b := Ballot(m.req.candidateId, LastLogTerm(n.log), LastLogIndex(n.log));
      BallotKeeps(d, k, b);
      d := d.(ballots := d.ballots[k := b]);
    }
    MessageKeeps(d, VoteResp(m.dst, m.req.candidateId, resp));
  }

  lemma CountVoteKeeps(c: Cluster, i: Id, m: Message)
    requires ElectionInv(c) && Enabled(c, CountVote(i, m))
    ensures ElectionInv(DoCountVote(c, i, m))
  {
    if m.resp.granted && m.resp.term == c.ticks[i].term {
      assert VotedFor(c.ballots, m.src, m.resp.term, i);
      assert CountHolds(c.ballots, i, c.nodes[i], c.ticks[i]);
      TickKeeps(c, i, c.ticks[i].(votes := c.ticks[i].votes + {m.src}));
    }
  }

  ghost predicate Wins(c: Cluster, i: Id)
    requires Enabled(c, CloseTick(i))
  {
    |c.ticks[i].votes| >= Majority(c.nodes[i]) && c.nodes[i].state == Candidate
  }

  /** A candidate comes to lead exactly if more than half of the members have voted for it. */
  lemma LeadsIff(c: Cluster, i: Id)
    requires Enabled(c, CloseTick(i)) && c.nodes[i].state == Candidate
    ensures Apply(c, CloseTick(i)).nodes[i].state == Leader <==> 2 * |c.ticks[i].votes| > |c.nodes[i].peers| + 1
  {
    var n := c.nodes[i];
    assert |c.ticks[i].votes| >= Majority(n) <==> 2 * |c.ticks[i].votes| > |n.peers| + 1;
  }

  lemma WinnerElected(c: Cluster, i: Id)
    requires ElectionInv(c) && Enabled(c, CloseTick(i)) && Wins(c, i)
    ensures var n := c.nodes[i];
            Elected(c.ballots, c.nodes.Keys, Slot(i, n.currentTerm),
                    Victory(c.ticks[i].votes, LastLogTerm(n.log), LastLogIndex(n.log)))
  {
    var n, t := c.nodes[i], c.ticks[i];
    QuorumSize(c.nodes, i);
    assert CountHolds(c.ballots, i, n, t);
    forall p | p in t.votes
      ensures VotedFor(c.ballots, p, n.currentTerm, i)
      ensures BallotHolds(c.nodes, Slot(p, n.currentTerm), c.ballots[Slot(p, n.currentTerm)])
    {
      assert VotedFor(c.ballots, p, n.currentTerm, i);
    }
  }

  lemma WinKeeps(c: Cluster, i: Id, v: Victory)
    requires ElectionInv(c) && i in c.nodes && Elected(c.ballots, c.nodes.Keys, Slot(i, c.nodes[i].currentTerm), v)
    ensures var n := c.nodes[i];
            ElectionInv(c.(nodes := c.nodes[i := BecomeLeader(n)], victories := c.victories[Slot(i, n.currentTerm) := v],
                           leaderLogs := c.leaderLogs[n.currentTerm := n.log]))
  {
    hide ElectionInv, Elected;
    var n := c.nodes[i];
    // step aside, record the victory, take the lead
    NodeKeeps(c, i, n.(state := Follower));
    var d := c.(nodes := c.nodes[i := n.(state := Follower)]);
    assert d.nodes.Keys == c.nodes.Keys;
    VictoryKeeps(d, i, v);
    var e := d.(victories := d.victories[Slot(i, n.currentTerm) := v]);
    NodeKeeps(e, i, BecomeLeader(n));
    var f := e.(nodes := e.nodes[i := BecomeLeader(n)]);
    assert f.nodes == c.nodes[i := BecomeLeader(n)];
    HistoryKeeps(f, f.proposals, f.leaderLogs[n.currentTerm := n.log]);
  }

  lemma CloseTickKeeps(c: Cluster, i: Id)
    requires ElectionInv(c) && Enabled(c, CloseTick(i))
    ensures ElectionInv(DoCloseTick(c, i))
  {
    hide NodesHold, BallotsHold, RequestsHold, AnswersHold, CandidatesHold, VictoriesHold, LeadersHold, Elected;
    TickKeeps(c, i, Idle);
    if Wins(c, i) {
      WinnerElected(c, i);
      var n := c.nodes[i];
      WinKeeps(c.(ticks := c.ticks[i := Idle]), i, Victory(c.ticks[i].votes, LastLogTerm(n.log), LastLogIndex(n.log)));
    }
  }

  lemma LeaderWon(c: Cluster, i: Id)
    requires ElectionInv(c) && i in c.nodes && c.nodes[i].state == Leader
    ensures Slot(i, c.nodes[i].currentTerm) in c.victories
  {
  }

  lemma ProposeKeeps(c: Cluster, i: Id, key: string, val: string)
    requires ElectionInv(c) && Enabled(c, Propose(i, key, val))
    ensures ElectionInv(DoPropose(c, i, key, val))
  {
    hide ElectionInv;
    LeaderWon(c, i);
    var n := AppendEntry(c.nodes[i], key, val);
    assert Evolves(c.nodes[i], n);
    NodeKeeps(c, i, n);
    HistoryKeeps(c.(nodes := c.nodes[i := n]), DoPropose(c, i, key, val).proposals,
                 c.leaderLogs[n.currentTerm := n.log]);
  }

  lemma CommitKeeps(c: Cluster, p: Proposal)
    requires ElectionInv(c) && Enabled(c, Commit(p))
    ensures ElectionInv(DoCommit(c, p))
  {
    hide ElectionInv;
    LeaderWon(c, p.leader);
    var n := c.nodes[p.leader].(commitIndex := p.entry.index);
    assert Evolves(c.nodes[p.leader], n);
    NodeKeeps(c, p.leader, n);
  }

  lemma SendKeeps(c: Cluster, s: Step)
    requires ElectionInv(c) && Enabled(c, s) && (s.SendEntry? || s.SendHeartbeat?)
    ensures ElectionInv(Apply(c, s))
  {
    if s.SendEntry? {
      MessageKeeps(c, Append(s.peer, EntryMessage(c.nodes[s.p.leader], s.p.entry)));
    } else {
      var n := c.nodes[s.i];
      MessageKeeps(c, Append(s.peer, BuildHeartbeat(n.id, n.currentTerm, n.commitIndex)));
    }
  }

  lemma AppendEvolves(n: Node, req: AppendEntries)
    ensures var m := HandleAppendEntries(n, req).0; Evolves(n, m) && (m.state == Follower || m == n)
  {
  }

  lemma AnswerAppendKeeps(c: Cluster, m: Message)
    requires ElectionInv(c) && Enabled(c, AnswerAppend(m))
    ensures ElectionInv(DoAnswerAppend(c, m))
  {
    var n := c.nodes[m.dst];
    AppendEvolves(n, m.ae);
    hide ElectionInv, HandleAppendEntries;
    if n.state == Leader {
      LeaderWon(c, m.dst);
    }
    NodeKeeps(c, m.dst, HandleAppendEntries(n, m.ae).0);
  }

  lemma StepKeepsElectionInv(c: Cluster, s: Step)
    requires ElectionInv(c) && Enabled(c, s)
    ensures ElectionInv(Apply(c, s))
  {
    hide NodesHold, BallotsHold, RequestsHold, AnswersHold, CandidatesHold, VictoriesHold, LeadersHold;
    match s
    case Timeout(i) => TimeoutKeeps(c, i);
    case Observe(i) => TickKeeps(c, i, Observed);
    case Capture(i) => TickKeeps(c, i, Collecting(c.nodes[i].currentTerm, {i}));
    case AskVote(i, p) => AskVoteKeeps(c, i, p);
    case AnswerVote(m) => AnswerVoteKeeps(c, m);
    case CountVote(i, m) => CountVoteKeeps(c, i, m);
    case CloseTick(i) => CloseTickKeeps(c, i);
    case Propose(i, k, v) => ProposeKeeps(c, i, k, v);
    case SendEntry(_, _) => SendKeeps(c, s);
    case SendHeartbeat(_, _) => SendKeeps(c, s);
    case AnswerAppend(m) => AnswerAppendKeeps(c, m);
    case Commit(p) => CommitKeeps(c, p);
  }

  // ---- every run ----

  lemma InitElectionInv(peersOf: map<Id, seq<Id>>)
    requires StaticMembership(peersOf)
    ensures ElectionInv(Init(peersOf))
  {
    var c := Init(peersOf);
    assert c.nodes.Keys == peersOf.Keys;
    forall i | i in c.nodes ensures c.nodes[i].id == i && Configured(c.nodes[i].peers, i, c.nodes.Keys) {
      assert Configured(peersOf[i], i, peersOf.Keys);
    }
  }

  lemma {:induction false} RunKeepsElectionInv(c: Cluster, steps: seq<Step>)
    requires ElectionInv(c) && IsRun(c, steps)
    ensures ElectionInv(Exec(c, steps))
    decreases |steps|
  {
    hide ElectionInv;
    if steps != [] {
      StepKeepsElectionInv(c, steps[0]);
      RunKeepsElectionInv(Apply(c, steps[0]), steps[1..]);
    }
  }

  ghost predicate BothLead(n: Node, m: Node) {
    n.state == Leader && m.state == Leader && n.currentTerm == m.currentTerm
  }

  /** Election Safety: after any run, whatever was lost, delayed or repeated, a term has one winner
      and so at most one leader. */
  lemma ElectionSafety(peersOf: map<Id, seq<Id>>, steps: seq<Step>)
    requires StaticMembership(peersOf) && IsRun(Init(peersOf), steps)
    ensures var c := Exec(Init(peersOf), steps);
            && (forall i, j, t :: Slot(i, t) in c.victories && Slot(j, t) in c.victories ==> i == j)
            && (forall i, j :: i in c.nodes && j in c.nodes && BothLead(c.nodes[i], c.nodes[j]) ==> i == j)
  {
    InitElectionInv(peersOf);
    RunKeepsElectionInv(Init(peersOf), steps);
    var c := Exec(Init(peersOf), steps);
    forall i, j, t | Slot(i, t) in c.victories && Slot(j, t) in c.victories ensures i == j {
      OneWinnerPerTerm(c, i, j, t);
    }
  }

  /** Every leader of a run was voted for by a majority of the members, each of which had, when it
      voted, a log no more recent than the leader's was when it won. */
  lemma LeadersAreBacked(peersOf: map<Id, seq<Id>>, steps: seq<Step>, i: Id)
    requires StaticMembership(peersOf) && IsRun(Init(peersOf), steps)
    requires i in Exec(Init(peersOf), steps).nodes && Exec(Init(peersOf), steps).nodes[i].state == Leader
    ensures var c := Exec(Init(peersOf), steps);
            var w := Slot(i, c.nodes[i].currentTerm);
            w in c.victories && Elected(c.ballots, c.nodes.Keys, w, c.victories[w])
  {
    InitElectionInv(peersOf);
    RunKeepsElectionInv(Init(peersOf), steps);
  }
}
