/** A cluster of Raft nodes as `MetaNode` drives them: election ticks, vote counting, proposals and
    sends interleave in any order, and every message sent may be delivered late, repeatedly or never. */
module RaftCluster {
  import opened Wrappers
  import opened Raft

  /** Where a node's ticker thread is between two lock acquisitions of `tick`. */
  datatype Tick =
    | Idle
    | Observed                                // has read state == Candidate
    | Collecting(term: nat, votes: set<Id>)   // has captured a term and counts votes for it

  datatype Message =
    | VoteReq(dst: Id, req: RequestVote)
    | VoteResp(src: Id, dst: Id, resp: VoteResponse)
    | Append(dst: Id, ae: AppendEntries)

  /** One node in one term. */
  datatype Slot = Slot(node: Id, term: nat)

  /** A vote, with the end of the voter's log when it was cast. */
  datatype Ballot = Ballot(candidate: Id, lastTerm: nat, lastIndex: nat)

  /** A won election, with the end of the winner's log. */
  datatype Victory = Victory(voters: set<Id>, lastTerm: nat, lastIndex: nat)

  /** An entry a leader appended, with the term of the entry before it (0 for the first). */
  datatype Proposal = Proposal(leader: Id, entry: LogEntry, prevTerm: nat)

  /** `ballots`, `victories` and `leaderLogs` record history: no step reads them. `leaderLogs` holds, for every term
      with a leader, that leader's log as it last stood while it led. */
  datatype Cluster =
    Cluster(nodes: map<Id, Node>,
            ticks: map<Id, Tick>,
            net: set<Message>,
            proposals: set<Proposal>,
            ballots: map<Slot, Ballot>,
            victories: map<Slot, Victory>,
            leaderLogs: map<nat, seq<LogEntry>>)

  predicate Distinct<T(==)>(s: seq<T>) {
    forall i, j :: 0 <= i < j < |s| ==> s[i] != s[j]
  }

  /** `peers` lists every member but `self`, once. */
  ghost predicate Configured(peers: seq<Id>, self: Id, members: set<Id>) {
    Distinct(peers) && forall p :: p in peers <==> p in members && p != self
  }

  /** Every node is configured with all the others. */
  ghost predicate StaticMembership(peersOf: map<Id, seq<Id>>) {
    forall i :: i in peersOf ==> Configured(peersOf[i], i, peersOf.Keys)
  }

  function Init(peersOf: map<Id, seq<Id>>): Cluster {
    Cluster(map i | i in peersOf :: NewNode(i, peersOf[i]), map i | i in peersOf :: Idle,
            {}, {}, map[], map[], map[])
  }

  datatype Step =
    | Timeout(i: Id)
    | Observe(i: Id)
    | Capture(i: Id)
    | AskVote(i: Id, peer: Id)
    | AnswerVote(vote: Message)
    | CountVote(i: Id, answer: Message)
    | CloseTick(i: Id)
    | Propose(i: Id, key: string, val: string)
    | SendEntry(p: Proposal, peer: Id)
    | SendHeartbeat(i: Id, peer: Id)
    | AnswerAppend(append: Message)
    | Commit(p: Proposal)

  predicate Enabled(c: Cluster, s: Step) {
    match s
    case Timeout(i) => i in c.nodes && i in c.ticks && c.ticks[i] == Idle && c.nodes[i].state == Follower
    case Observe(i) => i in c.nodes && i in c.ticks && c.ticks[i] == Idle && c.nodes[i].state == Candidate
    case Capture(i) => i in c.nodes && i in c.ticks && c.ticks[i] == Observed
    case AskVote(i, p) => i in c.nodes && i in c.ticks && c.ticks[i].Collecting? && p in c.nodes[i].peers
    case AnswerVote(m) => m in c.net && m.VoteReq? && m.dst in c.nodes
    case CountVote(i, m) => i in c.ticks && c.ticks[i].Collecting? && m in c.net && m.VoteResp? && m.dst == i
    case CloseTick(i) => i in c.nodes && i in c.ticks && c.ticks[i].Collecting?
    case Propose(i, _, _) => i in c.nodes && c.nodes[i].state == Leader
    case SendEntry(p, peer) => p in c.proposals && p.leader in c.nodes && peer in c.nodes[p.leader].peers
    case SendHeartbeat(i, p) => i in c.nodes && p in c.nodes[i].peers
    case AnswerAppend(m) => m in c.net && m.Append? && m.dst in c.nodes
    case Commit(p) => p in c.proposals && p.leader in c.nodes && c.nodes[p.leader].state == Leader
  }

  function DoTimeout(c: Cluster, i: Id): Cluster
    requires Enabled(c, Timeout(i))
  {
    var n := StartElection(c.nodes[i]);
    c.(nodes := c.nodes[i := n],
       ballots := c.ballots[Slot(i, n.currentTerm) := Ballot(i, LastLogTerm(n.log), LastLogIndex(n.log))])
  }

  /** The request carries whatever term and log the node has by now, candidate or not. */
  function DoAskVote(c: Cluster, i: Id, peer: Id): Cluster
    requires Enabled(c, AskVote(i, peer))
  {
    var n := c.nodes[i];
    c.(net := c.net + {VoteReq(peer, RequestVote(n.currentTerm, n.id, LastLogIndex(n.log), LastLogTerm(n.log)))})
  }

  function DoAnswerVote(c: Cluster, m: Message): Cluster
    requires Enabled(c, AnswerVote(m))
  {
    var v := m.dst;
    var (n, resp) := HandleRequestVote(c.nodes[v], m.req);
    var ballots := if resp.granted && Slot(v, n.currentTerm) !in c.ballots
                   then c.ballots[Slot(v, n.currentTerm) := Ballot(m.req.candidateId, LastLogTerm(n.log), LastLogIndex(n.log))]
                   else c.ballots;
    c.(nodes := c.nodes[v := n], net := c.net + {VoteResp(v, m.req.candidateId, resp)}, ballots := ballots)
  }

  function DoCountVote(c: Cluster, i: Id, m: Message): Cluster
    requires Enabled(c, CountVote(i, m))
  {
    var t := c.ticks[i];
    if m.resp.granted && m.resp.term == t.term
    then c.(ticks := c.ticks[i := t.(votes := t.votes + {m.src})])
    else c
  }

  function DoCloseTick(c: Cluster, i: Id): Cluster
    requires Enabled(c, CloseTick(i))
  {
    var n, t := c.nodes[i], c.ticks[i];
    var d := c.(ticks := c.ticks[i := Idle]);
    if |t.votes| >= Majority(n) && n.state == Candidate
    then d.(nodes := c.nodes[i := BecomeLeader(n)],
            victories := c.victories[Slot(i, n.currentTerm) := Victory(t.votes, LastLogTerm(n.log), LastLogIndex(n.log))],
            leaderLogs := c.leaderLogs[n.currentTerm := n.log])
    else d
  }

  function DoPropose(c: Cluster, i: Id, key: string, val: string): Cluster
    requires Enabled(c, Propose(i, key, val))
  {
    var n := AppendEntry(c.nodes[i], key, val);
    c.(nodes := c.nodes[i := n],
       proposals := c.proposals + {Proposal(i, NextEntry(c.nodes[i], key, val), LastLogTerm(c.nodes[i].log))},
       leaderLogs := c.leaderLogs[n.currentTerm := n.log])
  }

  /** The message for an entry, as its proposer is by now. */
  function EntryMessage(n: Node, e: LogEntry): AppendEntries {
    BuildAppend(n.id, n.currentTerm, n.commitIndex, n.log, [e])
  }

  /** `leader_propose` re-reads the term and the log for every peer it sends the entry to. */
  function DoSendEntry(c: Cluster, p: Proposal, peer: Id): Cluster
    requires Enabled(c, SendEntry(p, peer))
  {
    c.(net := c.net + {Append(peer, EntryMessage(c.nodes[p.leader], p.entry))})
  }

  function DoSendHeartbeat(c: Cluster, i: Id, peer: Id): Cluster
    requires Enabled(c, SendHeartbeat(i, peer))
  {
    var n := c.nodes[i];
    c.(net := c.net + {Append(peer, BuildHeartbeat(n.id, n.currentTerm, n.commitIndex))})
  }

  function DoAnswerAppend(c: Cluster, m: Message): Cluster
    requires Enabled(c, AnswerAppend(m))
  {
    c.(nodes := c.nodes[m.dst := HandleAppendEntries(c.nodes[m.dst], m.ae).0])
  }

  /** Acknowledgements also come from the catalog path, so a leader may commit any proposal of its own. */
  function DoCommit(c: Cluster, p: Proposal): Cluster
    requires Enabled(c, Commit(p))
  {
    c.(nodes := c.nodes[p.leader := c.nodes[p.leader].(commitIndex := p.entry.index)])
  }

  function Apply(c: Cluster, s: Step): Cluster
    requires Enabled(c, s)
  {
    match s
    case Timeout(i) => DoTimeout(c, i)
    case Observe(i) => c.(ticks := c.ticks[i := Observed])
    case Capture(i) => c.(ticks := c.ticks[i := Collecting(c.nodes[i].currentTerm, {i})])
    case AskVote(i, p) => DoAskVote(c, i, p)
    case AnswerVote(m) => DoAnswerVote(c, m)
    case CountVote(i, m) => DoCountVote(c, i, m)
    case CloseTick(i) => DoCloseTick(c, i)
    case Propose(i, k, v) => DoPropose(c, i, k, v)
    case SendEntry(p, peer) => DoSendEntry(c, p, peer)
    case SendHeartbeat(i, p) => DoSendHeartbeat(c, i, p)
    case AnswerAppend(m) => DoAnswerAppend(c, m)
    case Commit(p) => DoCommit(c, p)
  }

  predicate IsRun(c: Cluster, steps: seq<Step>)
    decreases |steps|
  {
    steps == [] || (Enabled(c, steps[0]) && IsRun(Apply(c, steps[0]), steps[1..]))
  }

  function Exec(c: Cluster, steps: seq<Step>): Cluster
    requires IsRun(c, steps)
    decreases |steps|
  {
    if steps == [] then c else Exec(Apply(c, steps[0]), steps[1..])
  }

  /** What the proposer can check before it sends: the entry is the first, or it no longer has the entry before it, or
      it still has one of the term it proposed the entry after. */
  predicate SafeSend(log: seq<LogEntry>, p: Proposal) {
    p.entry.index <= 1 || p.entry.index - 1 > |log| || log[p.entry.index - 2].term == p.prevTerm
  }

  ghost predicate SafeStep(c: Cluster, s: Step) {
    s.SendEntry? && s.p.leader in c.nodes ==> SafeSend(c.nodes[s.p.leader].log, s.p)
  }

  ghost predicate IsSafeRun(c: Cluster, steps: seq<Step>)
    decreases |steps|
  {
    steps == [] ||
    (Enabled(c, steps[0]) && SafeStep(c, steps[0]) && IsSafeRun(Apply(c, steps[0]), steps[1..]))
  }

  /** The sender is still leader of the entry's term when it sends it. */
  ghost predicate FreshSend(c: Cluster, s: Step) {
    s.SendEntry? && s.p.leader in c.nodes ==>
      c.nodes[s.p.leader].state == Leader && c.nodes[s.p.leader].currentTerm == s.p.entry.term
  }

  ghost predicate IsFreshRun(c: Cluster, steps: seq<Step>)
    decreases |steps|
  {
    steps == [] ||
    (Enabled(c, steps[0]) && FreshSend(c, steps[0]) && IsFreshRun(Apply(c, steps[0]), steps[1..]))
  }
}
