/** Log Matching. */
module RaftLogs {
  /* Entries of equal index and term have equal histories exactly as long as no node writes an entry behind another
      term than its leader did; proposers that check `SafeSend` make sure of that. */

  import opened Wrappers
  import opened Raft
  import opened RaftCluster
  import opened RaftElection

  /** Every entry sits at its index and extends exactly the log that the leader of its term had there. */
  ghost predicate Follows(leaderLogs: map<nat, seq<LogEntry>>, log: seq<LogEntry>) {
    forall k :: 0 <= k < |log| ==> EntryFollows(leaderLogs, log, k)
  }

  ghost predicate EntryFollows(leaderLogs: map<nat, seq<LogEntry>>, log: seq<LogEntry>, k: nat)
    requires k < |log|
  {
    && log[k].index == k + 1
    && log[k].term in leaderLogs && k < |leaderLogs[log[k].term]|
    && log[..k + 1] == leaderLogs[log[k].term][..k + 1]
  }

  /** The term of the entry before position `at`. */
  function TermBefore(log: seq<LogEntry>, at: nat): nat {
    if 0 < at <= |log| then log[at - 1].term else 0
  }

  /** An entry on the wire is the entry of its term's leader at that index. */
  ghost predicate AppendCarries(leaderLogs: map<nat, seq<LogEntry>>, ae: AppendEntries) {
    ae.entries != [] ==>
      && |ae.entries| == 1 && ae.entries[0].term in leaderLogs
      && ae.prevLogIndex < |leaderLogs[ae.entries[0].term]|
      && leaderLogs[ae.entries[0].term][ae.prevLogIndex] == ae.entries[0]
  }

  /** The message names the term that the entry's leader had before it. */
  ghost predicate Truthful(leaderLogs: map<nat, seq<LogEntry>>, ae: AppendEntries) {
    ae.entries != [] && ae.prevLogIndex > 0 ==>
      ae.entries[0].term in leaderLogs && ae.prevLogTerm == TermBefore(leaderLogs[ae.entries[0].term], ae.prevLogIndex)
  }

  ghost predicate ProposalHolds(victories: map<Slot, Victory>, leaderLogs: map<nat, seq<LogEntry>>, p: Proposal) {
    && Slot(p.leader, p.entry.term) in victories && p.entry.term in leaderLogs
    && 1 <= p.entry.index <= |leaderLogs[p.entry.term]| && leaderLogs[p.entry.term][p.entry.index - 1] == p.entry
    && p.prevTerm == TermBefore(leaderLogs[p.entry.term], p.entry.index - 1)
  }

  ghost predicate NodeLogsFollow(nodes: map<Id, Node>, leaderLogs: map<nat, seq<LogEntry>>) {
    forall i :: i in nodes ==> Follows(leaderLogs, nodes[i].log)
  }

  ghost predicate LeaderLogsFollow(leaderLogs: map<nat, seq<LogEntry>>) {
    forall t :: t in leaderLogs ==> Follows(leaderLogs, leaderLogs[t])
  }

  ghost predicate LeadersCurrent(nodes: map<Id, Node>, leaderLogs: map<nat, seq<LogEntry>>) {
    forall i :: i in nodes && nodes[i].state == Leader ==>
      nodes[i].currentTerm in leaderLogs && nodes[i].log == leaderLogs[nodes[i].currentTerm]
  }

  ghost predicate AppendsCarry(net: set<Message>, leaderLogs: map<nat, seq<LogEntry>>) {
    forall m :: m in net && m.Append? ==> AppendCarries(leaderLogs, m.ae)
  }

  ghost predicate ProposalsHold(proposals: set<Proposal>, victories: map<Slot, Victory>, leaderLogs: map<nat, seq<LogEntry>>) {
    forall p :: p in proposals ==> ProposalHolds(victories, leaderLogs, p)
  }

  /** Terms in which somebody runs or leads are not 0. */
  ghost predicate TermsPositive(nodes: map<Id, Node>, leaderLogs: map<nat, seq<LogEntry>>) {
    0 !in leaderLogs && forall i :: i in nodes && nodes[i].state != Follower ==> nodes[i].currentTerm > 0
  }

  ghost predicate TermsWon(victories: map<Slot, Victory>, leaderLogs: map<nat, seq<LogEntry>>) {
    forall t :: t in leaderLogs ==> exists i :: Slot(i, t) in victories
  }

  ghost predicate LogInv(c: Cluster) {
    && NodeLogsFollow(c.nodes, c.leaderLogs)
    && LeaderLogsFollow(c.leaderLogs)
    && LeadersCurrent(c.nodes, c.leaderLogs)
    && AppendsCarry(c.net, c.leaderLogs)
    && ProposalsHold(c.proposals, c.victories, c.leaderLogs)
    && TermsWon(c.victories, c.leaderLogs)
    && TermsPositive(c.nodes, c.leaderLogs)
  }

  /** Two logs that follow the leaders agree up to any position where their terms agree. */
  lemma FollowersMatch(leaderLogs: map<nat, seq<LogEntry>>, a: seq<LogEntry>, b: seq<LogEntry>, k: nat)
    requires Follows(leaderLogs, a) && Follows(leaderLogs, b)
    requires k < |a| && k < |b| && a[k].term == b[k].term
    ensures a[..k + 1] == b[..k + 1]
  {
    assert EntryFollows(leaderLogs, a, k) && EntryFollows(leaderLogs, b, k);
  }

  lemma PrefixFollows(leaderLogs: map<nat, seq<LogEntry>>, a: seq<LogEntry>, n: nat)
    requires Follows(leaderLogs, a) && n <= |a|
    ensures Follows(leaderLogs, a[..n])
  {
    forall k | 0 <= k < n ensures EntryFollows(leaderLogs, a[..n], k) {
      assert EntryFollows(leaderLogs, a, k);
      assert a[..n][..k + 1] == a[..k + 1];
    }
  }

  /** Accepting a truthful message leaves the log as it was or makes it a prefix of the log of the entry's leader. */
  lemma MergeFollows(leaderLogs: map<nat, seq<LogEntry>>, log: seq<LogEntry>, ae: AppendEntries)
    requires Follows(leaderLogs, log) && LeaderLogsFollow(leaderLogs) && AppendCarries(leaderLogs, ae)
    requires PrevOk(log, ae.prevLogIndex, ae.prevLogTerm)
    requires Agreeing(log, ae.prevLogIndex, ae.entries) < |ae.entries| ==> Truthful(leaderLogs, ae)
    ensures Follows(leaderLogs, MergeEntries(log, ae.prevLogIndex, ae.entries))
  {
    var at, k := ae.prevLogIndex, Agreeing(log, ae.prevLogIndex, ae.entries);
    if k < |ae.entries| {
      var l := leaderLogs[ae.entries[0].term];
      assert log[..at] == l[..at] by {
        if at > 0 {
          FollowersMatch(leaderLogs, log, l, at - 1);
        }
      }
      assert log[..at] + ae.entries == l[..at + 1];
      PrefixFollows(leaderLogs, l, at + 1);
    }
  }

  /** Writing an entry behind another term than its leader did makes a log that does not match the leader's. */
  lemma UntruthfulBreaks(leaderLogs: map<nat, seq<LogEntry>>, log: seq<LogEntry>, ae: AppendEntries)
    requires Follows(leaderLogs, log) && LeaderLogsFollow(leaderLogs) && AppendCarries(leaderLogs, ae)
    requires PrevOk(log, ae.prevLogIndex, ae.prevLogTerm)
    requires Agreeing(log, ae.prevLogIndex, ae.entries) < |ae.entries| && !Truthful(leaderLogs, ae)
    ensures !LogsMatch(MergeEntries(log, ae.prevLogIndex, ae.entries), leaderLogs[ae.entries[0].term])
  {
    var at, e := ae.prevLogIndex, ae.entries[0];
    var l, m := leaderLogs[e.term], MergeEntries(log, at, ae.entries);
    assert ae.entries == [e] && Agreeing(log, at, ae.entries) == 0;
    assert m == log[..at] + [e];
    assert m[at] == e == l[at];
    assert m[..at + 1][at - 1] == log[at - 1] && l[..at + 1][at - 1] == l[at - 1];
  }

  /** The leader logs only grow, so what followed them still does. */
  ghost predicate Grows(a: map<nat, seq<LogEntry>>, b: map<nat, seq<LogEntry>>) {
    forall t :: t in a ==> t in b && a[t] <= b[t]
  }

  lemma GrowthFollows(a: map<nat, seq<LogEntry>>, b: map<nat, seq<LogEntry>>, log: seq<LogEntry>)
    requires Grows(a, b) && Follows(a, log)
    ensures Follows(b, log)
  {
    forall k | 0 <= k < |log| ensures EntryFollows(b, log, k) {
      assert EntryFollows(a, log, k);
      assert b[log[k].term][..k + 1] == a[log[k].term][..k + 1];
    }
  }

  lemma GrowthFollowsEverywhere(c: Cluster, b: map<nat, seq<LogEntry>>)
    requires LogInv(c) && Grows(c.leaderLogs, b)
    ensures NodeLogsFollow(c.nodes, b) && AppendsCarry(c.net, b) && ProposalsHold(c.proposals, c.victories, b)
    ensures forall t :: t in c.leaderLogs ==> Follows(b, c.leaderLogs[t])
  {
    forall i | i in c.nodes ensures Follows(b, c.nodes[i].log) {
      GrowthFollows(c.leaderLogs, b, c.nodes[i].log);
    }
    forall m | m in c.net && m.Append? ensures AppendCarries(b, m.ae) {
      assert AppendCarries(c.leaderLogs, m.ae);
    }
    forall p | p in c.proposals ensures ProposalHolds(c.victories, b, p) {
      assert ProposalHolds(c.victories, c.leaderLogs, p);
    }
    forall t | t in c.leaderLogs ensures Follows(b, c.leaderLogs[t]) {
      GrowthFollows(c.leaderLogs, b, c.leaderLogs[t]);
    }
  }

  // ---- every step ----

  /** A node that does not lead may take any log that follows the leaders. */
  lemma NodeKeepsLogs(c: Cluster, i: Id, m: Node)
    requires LogInv(c) && i in c.nodes && Follows(c.leaderLogs, m.log)
    requires m.state == Leader ==> m.currentTerm in c.leaderLogs && m.log == c.leaderLogs[m.currentTerm]
    requires m.state != Follower ==> m.currentTerm > 0
    ensures LogInv(c.(nodes := c.nodes[i := m]))
  {
    hide Follows, AppendsCarry, ProposalsHold;
  }

  lemma MessageKeepsLogs(c: Cluster, m: Message)
    requires LogInv(c) && (m.Append? ==> AppendCarries(c.leaderLogs, m.ae))
    ensures LogInv(c.(net := c.net + {m}))
  {
    hide AppendCarries;
  }

  /** Delivering the message makes the node change its log. */
  predicate Writes(n: Node, ae: AppendEntries) {
    && ae.term >= n.currentTerm && PrevOk(n.log, ae.prevLogIndex, ae.prevLogTerm)
    && Agreeing(n.log, ae.prevLogIndex, ae.entries) < |ae.entries|
  }

  /** No node writes an entry behind another term than the entry's leader had there. */
  ghost predicate HarmlessStep(c: Cluster, s: Step)
    requires Enabled(c, s)
  {
    s.AnswerAppend? && Writes(c.nodes[s.append.dst], s.append.ae) ==> Truthful(c.leaderLogs, s.append.ae)
  }

  lemma AnswerAppendKeepsLogs(c: Cluster, m: Message)
    requires LogInv(c) && Enabled(c, AnswerAppend(m)) && HarmlessStep(c, AnswerAppend(m))
    ensures LogInv(DoAnswerAppend(c, m))
  {
    var n := c.nodes[m.dst];
    var after := HandleAppendEntries(n, m.ae).0;
    assert AppendCarries(c.leaderLogs, m.ae) && Follows(c.leaderLogs, n.log);
    if m.ae.term >= n.currentTerm && PrevOk(n.log, m.ae.prevLogIndex, m.ae.prevLogTerm) {
      MergeFollows(c.leaderLogs, n.log, m.ae);
    }
    AppendEvolves(n, m.ae);
    assert Follows(c.leaderLogs, after.log);
    NodeKeepsLogs(c, m.dst, after);
  }

  ghost predicate SoleLeader(nodes: map<Id, Node>, i: Id, term: nat) {
    forall j :: j in nodes && nodes[j].state == Leader && nodes[j].currentTerm == term ==> j == i
  }

  /** A leader's log becomes, or extends, the log of its term. */
  lemma LeaderLogKeeps(c: Cluster, i: Id, n: Node, victories: map<Slot, Victory>, proposals: set<Proposal>)
    requires LogInv(c) && i in c.nodes && SoleLeader(c.nodes, i, n.currentTerm) && n.currentTerm > 0
    requires c.victories.Keys <= victories.Keys && Slot(i, n.currentTerm) in victories
    requires var b := c.leaderLogs[n.currentTerm := n.log];
             && Grows(c.leaderLogs, b) && Follows(b, n.log)
             && forall p :: p in proposals && p !in c.proposals ==> ProposalHolds(victories, b, p)
    ensures LogInv(c.(nodes := c.nodes[i := n], victories := victories, proposals := proposals,
                      leaderLogs := c.leaderLogs[n.currentTerm := n.log]))
  {
    var b := c.leaderLogs[n.currentTerm := n.log];
    GrowthFollowsEverywhere(c, b);
    hide Follows, AppendsCarry, NodeLogsFollow;
    assert NodeLogsFollow(c.nodes[i := n], b) by {
      NodeLogsAfter(c.nodes, b, i, n);
    }
    assert TermsWon(victories, b) by {
      forall t | t in b ensures exists j :: Slot(j, t) in victories {
        if t in c.leaderLogs {
          var j :| Slot(j, t) in c.victories;
          assert Slot(j, t) in victories;
        } else {
          assert Slot(i, t) in victories;
        }
      }
    }
    forall p | p in proposals ensures ProposalHolds(victories, b, p) {
      assert p in c.proposals ==> ProposalHolds(c.victories, b, p);
    }
  }

  lemma NodeLogsAfter(nodes: map<Id, Node>, b: map<nat, seq<LogEntry>>, i: Id, n: Node)
    requires NodeLogsFollow(nodes, b) && i in nodes && Follows(b, n.log)
    ensures NodeLogsFollow(nodes[i := n], b)
  {
    hide Follows;
  }

  /** A win starts a leader log in a term that had none. */
  lemma WinKeepsLogs(c: Cluster, i: Id)
    requires ElectionInv(c) && LogInv(c) && Enabled(c, CloseTick(i)) && Wins(c, i)
    ensures LogInv(DoCloseTick(c, i))
  {
    hide ElectionInv;
    var n, d := c.nodes[i], DoCloseTick(c, i);
    FirstWin(c, i);
    assert Follows(c.leaderLogs, n.log);
    GrowthFollows(c.leaderLogs, d.leaderLogs, n.log);
    LeaderLogKeeps(c, i, BecomeLeader(n), d.victories, c.proposals);
  }

  lemma CandidateNotYetWon(c: Cluster, i: Id)
    requires ElectionInv(c) && i in c.nodes && c.nodes[i].state == Candidate
    ensures Slot(i, c.nodes[i].currentTerm) !in c.victories
  {
  }

  lemma FirstWin(c: Cluster, i: Id)
    requires ElectionInv(c) && LogInv(c) && Enabled(c, CloseTick(i)) && Wins(c, i)
    ensures c.nodes[i].currentTerm !in c.leaderLogs
  {
    hide ElectionInv;
    var n := c.nodes[i];
    if n.currentTerm in c.leaderLogs {
      var j :| Slot(j, n.currentTerm) in c.victories;
      assert Slot(i, n.currentTerm) !in c.victories by {
        CandidateNotYetWon(c, i);
      }
      CloseTickKeeps(c, i);
      OneWinnerPerTerm(DoCloseTick(c, i), i, j, n.currentTerm);
    }
  }

  lemma LeadsAlone(c: Cluster, i: Id)
    requires ElectionInv(c) && i in c.nodes && c.nodes[i].state == Leader
    ensures SoleLeader(c.nodes, i, c.nodes[i].currentTerm)
  {
    hide ElectionInv;
    LeaderWon(c, i);
    forall j | j in c.nodes && c.nodes[j].state == Leader && c.nodes[j].currentTerm == c.nodes[i].currentTerm ensures j == i {
      LeaderWon(c, j);
      OneWinnerPerTerm(c, i, j, c.nodes[i].currentTerm);
    }
  }

  lemma PushGrows(a: map<nat, seq<LogEntry>>, t: nat, e: LogEntry)
    requires t in a
    ensures Grows(a, a[t := a[t] + [e]])
  {
  }

  lemma ProposeKeepsLogs(c: Cluster, i: Id, key: string, val: string)
    requires ElectionInv(c) && LogInv(c) && Enabled(c, Propose(i, key, val))
    ensures LogInv(DoPropose(c, i, key, val))
  {
    hide ElectionInv, Grows;
    var n, e, m, d := c.nodes[i], NextEntry(c.nodes[i], key, val), AppendEntry(c.nodes[i], key, val), DoPropose(c, i, key, val);
    LeaderWon(c, i);
    LeadsAlone(c, i);
    assert Follows(c.leaderLogs, n.log);
    assert Grows(c.leaderLogs, d.leaderLogs) by {
      PushGrows(c.leaderLogs, n.currentTerm, e);
    }
    GrowthFollows(c.leaderLogs, d.leaderLogs, n.log);
    LastIndexIsLength(c.leaderLogs, n.log);
    SnocFollows(d.leaderLogs, n.log, e);
    LeaderLogKeeps(c, i, m, c.victories, d.proposals);
  }

  lemma SnocFollows(b: map<nat, seq<LogEntry>>, log: seq<LogEntry>, e: LogEntry)
    requires Follows(b, log) && e.index == |log| + 1 && e.term in b && b[e.term] == log + [e]
    ensures Follows(b, log + [e])
  {
    forall k | 0 <= k < |log + [e]| ensures EntryFollows(b, log + [e], k) {
      if k < |log| {
        assert EntryFollows(b, log, k);
        assert (log + [e])[..k + 1] == log[..k + 1];
      }
    }
  }

  /** Logs are dense: the last index is the length. */
  lemma LastIndexIsLength(leaderLogs: map<nat, seq<LogEntry>>, log: seq<LogEntry>)
    requires Follows(leaderLogs, log)
    ensures LastLogIndex(log) == |log|
  {
    if log != [] {
      assert EntryFollows(leaderLogs, log, |log| - 1);
    }
  }

  /** Fresh or not, a send carries the entry its leader proposed. */
  lemma SendEntryKeepsLogs(c: Cluster, p: Proposal, peer: Id)
    requires LogInv(c) && Enabled(c, SendEntry(p, peer))
    ensures LogInv(DoSendEntry(c, p, peer))
  {
    assert ProposalHolds(c.victories, c.leaderLogs, p);
    MessageKeepsLogs(c, Append(peer, EntryMessage(c.nodes[p.leader], p.entry)));
  }

  lemma StepKeepsLogInv(c: Cluster, s: Step)
    requires ElectionInv(c) && LogInv(c) && Enabled(c, s) && HarmlessStep(c, s)
    ensures LogInv(Apply(c, s))
  {
    hide ElectionInv;
    match s
    case Timeout(i) => NodeKeepsLogs(c, i, StartElection(c.nodes[i]));
    case AskVote(i, p) =>
    case AnswerVote(m) => AnswerVoteKeepsLogs(c, m);
    case CloseTick(i) => if Wins(c, i) { WinKeepsLogs(c, i); }
    case Propose(i, k, v) => ProposeKeepsLogs(c, i, k, v);
    case SendEntry(p, peer) => SendEntryKeepsLogs(c, p, peer);
    case AnswerAppend(m) => AnswerAppendKeepsLogs(c, m);
    case Commit(p) => NodeKeepsLogs(c, p.leader, c.nodes[p.leader].(commitIndex := p.entry.index));
    case _ =>
  }

  lemma AnswerVoteKeepsLogs(c: Cluster, m: Message)
    requires LogInv(c) && Enabled(c, AnswerVote(m))
    ensures LogInv(DoAnswerVote(c, m))
  {
    var (n, resp) := HandleRequestVote(c.nodes[m.dst], m.req);
    NodeKeepsLogs(c, m.dst, n);
    MessageKeepsLogs(c.(nodes := c.nodes[m.dst := n]), VoteResp(m.dst, m.req.candidateId, resp));
  }

  // ---- every run ----

  ghost predicate IsHarmlessRun(c: Cluster, steps: seq<Step>)
    decreases |steps|
  {
    steps == [] ||
    (Enabled(c, steps[0]) && HarmlessStep(c, steps[0]) && IsHarmlessRun(Apply(c, steps[0]), steps[1..]))
  }

  lemma {:induction false} RunKeepsLogInv(c: Cluster, steps: seq<Step>)
    requires ElectionInv(c) && LogInv(c) && IsHarmlessRun(c, steps)
    ensures IsRun(c, steps) && LogInv(Exec(c, steps))
    decreases |steps|
  {
    hide ElectionInv, LogInv;
    if steps != [] {
      StepKeepsElectionInv(c, steps[0]);
      StepKeepsLogInv(c, steps[0]);
      RunKeepsLogInv(Apply(c, steps[0]), steps[1..]);
    }
  }

  ghost predicate LogsMatch(a: seq<LogEntry>, b: seq<LogEntry>) {
    forall j, k :: 0 <= j < |a| && 0 <= k < |b| && a[j].index == b[k].index && a[j].term == b[k].term ==>
      j == k && a[..j + 1] == b[..k + 1]
  }

  ghost predicate Dense(log: seq<LogEntry>) {
    forall k :: 0 <= k < |log| ==> log[k].index == k + 1
  }

  /** Some node holds the log at some point of the run. */
  ghost predicate Held(c: Cluster, steps: seq<Step>, log: seq<LogEntry>)
    requires IsRun(c, steps)
    decreases |steps|
  {
    (exists i :: i in c.nodes && c.nodes[i].log == log) || (steps != [] && Held(Apply(c, steps[0]), steps[1..], log))
  }

  /** Any two logs that nodes hold at any two points of the run match. */
  ghost predicate AlwaysMatches(c: Cluster, steps: seq<Step>)
    requires IsRun(c, steps)
  {
    forall a, b :: Held(c, steps, a) && Held(c, steps, b) ==> LogsMatch(a, b)
  }

  lemma StepGrows(c: Cluster, s: Step)
    requires ElectionInv(c) && LogInv(c) && Enabled(c, s)
    ensures Grows(c.leaderLogs, Apply(c, s).leaderLogs)
  {
    hide ElectionInv, LogInv, HandleRequestVote, HandleAppendEntries;
    match s
    case CloseTick(i) => if Wins(c, i) { FirstWin(c, i); }
    case Propose(i, key, val) => ProposeGrows(c, i, key, val);
    case _ =>
  }

  lemma ProposeGrows(c: Cluster, i: Id, key: string, val: string)
    requires LogInv(c) && Enabled(c, Propose(i, key, val))
    ensures Grows(c.leaderLogs, DoPropose(c, i, key, val).leaderLogs)
  {
    PushGrows(c.leaderLogs, c.nodes[i].currentTerm, NextEntry(c.nodes[i], key, val));
  }

  lemma {:induction false} RunGrows(c: Cluster, steps: seq<Step>)
    requires ElectionInv(c) && LogInv(c) && IsHarmlessRun(c, steps)
    ensures IsRun(c, steps) && Grows(c.leaderLogs, Exec(c, steps).leaderLogs)
    decreases |steps|
  {
    hide ElectionInv, LogInv, Enabled, Apply, HarmlessStep;
    if steps != [] {
      StepGrows(c, steps[0]);
      StepKeepsElectionInv(c, steps[0]);
      StepKeepsLogInv(c, steps[0]);
      RunGrows(Apply(c, steps[0]), steps[1..]);
    }
  }

  /** In a harmless run every log ever held follows the leaders of the whole run. */
  lemma {:induction false} HeldFollows(c: Cluster, steps: seq<Step>, log: seq<LogEntry>)
    requires ElectionInv(c) && LogInv(c) && IsHarmlessRun(c, steps) && IsRun(c, steps) && Held(c, steps, log)
    ensures Follows(Exec(c, steps).leaderLogs, log)
    decreases |steps|
  {
    hide ElectionInv, Enabled, Apply, HarmlessStep, Follows, Grows;
    if i :| i in c.nodes && c.nodes[i].log == log {
      RunGrows(c, steps);
      assert Follows(c.leaderLogs, c.nodes[i].log);
      GrowthFollows(c.leaderLogs, Exec(c, steps).leaderLogs, log);
    } else {
      StepKeepsElectionInv(c, steps[0]);
      StepKeepsLogInv(c, steps[0]);
      HeldFollows(Apply(c, steps[0]), steps[1..], log);
    }
  }

  ghost predicate Led(c: Cluster, log: seq<LogEntry>) {
    exists t :: t in c.leaderLogs && c.leaderLogs[t] == log
  }

  /** A step records a leader's log only as it stands. */
  lemma LeaderLogIsHeld(c: Cluster, s: Step, t: nat)
    requires Enabled(c, s) && t in Apply(c, s).leaderLogs
    ensures var d := Apply(c, s);
            Led(c, d.leaderLogs[t]) || exists i :: i in d.nodes && d.nodes[i].log == d.leaderLogs[t]
  {
    hide HandleRequestVote, HandleAppendEntries;
    var d := Apply(c, s);
    if !(t in c.leaderLogs && c.leaderLogs[t] == d.leaderLogs[t]) {
      assert d.nodes[s.i].log == d.leaderLogs[t];
    }
  }

  lemma HarmBreaks(c: Cluster, s: Step) returns (log: seq<LogEntry>, led: seq<LogEntry>)
    requires LogInv(c) && Enabled(c, s) && !HarmlessStep(c, s)
    ensures exists i :: i in Apply(c, s).nodes && Apply(c, s).nodes[i].log == log
    ensures Led(c, led) && !LogsMatch(log, led)
  {
    hide Follows, LogsMatch;
    var m := s.append;
    var n := c.nodes[m.dst];
    assert AppendCarries(c.leaderLogs, m.ae) && Follows(c.leaderLogs, n.log);
    UntruthfulBreaks(c.leaderLogs, n.log, m.ae);
    log, led := MergeEntries(n.log, m.ae.prevLogIndex, m.ae.entries), c.leaderLogs[m.ae.entries[0].term];
    assert Apply(c, s).nodes[m.dst].log == log;
  }

  /** A harmful step leaves a log that does not match one held before. */
  lemma {:induction false} HarmIsHeld(c: Cluster, steps: seq<Step>) returns (log: seq<LogEntry>, led: seq<LogEntry>)
    requires ElectionInv(c) && LogInv(c) && IsRun(c, steps) && !IsHarmlessRun(c, steps)
    ensures Held(c, steps, log) && (Held(c, steps, led) || Led(c, led)) && !LogsMatch(log, led)
    decreases |steps|
  {
    hide ElectionInv, LogInv, Enabled, Apply, HarmlessStep, LogsMatch;
    var d := Apply(c, steps[0]);
    if HarmlessStep(c, steps[0]) {
      StepKeepsElectionInv(c, steps[0]);
      StepKeepsLogInv(c, steps[0]);
      log, led := HarmIsHeld(d, steps[1..]);
      if Led(d, led) {
        var t :| t in d.leaderLogs && d.leaderLogs[t] == led;
        LeaderLogIsHeld(c, steps[0], t);
      }
    } else {
      log, led := HarmBreaks(c, steps[0]);
      assert Held(d, steps[1..], log);
    }
  }

  lemma InitLogInv(peersOf: map<Id, seq<Id>>)
    ensures LogInv(Init(peersOf))
  {
  }

  /** Log Matching in every run, whatever is sent: any two logs ever held match exactly if no node writes an entry
      behind another term than the entry's leader had there. */
  lemma LogMatchingIff(peersOf: map<Id, seq<Id>>, steps: seq<Step>)
    requires StaticMembership(peersOf) && IsRun(Init(peersOf), steps)
    ensures AlwaysMatches(Init(peersOf), steps) <==> IsHarmlessRun(Init(peersOf), steps)
  {
    hide ElectionInv, LogInv, Follows, LogsMatch, Held, IsRun, IsHarmlessRun;
    var c := Init(peersOf);
    InitElectionInv(peersOf);
    InitLogInv(peersOf);
    if IsHarmlessRun(c, steps) {
      forall a, b | Held(c, steps, a) && Held(c, steps, b) ensures LogsMatch(a, b) {
        HeldFollows(c, steps, a);
        HeldFollows(c, steps, b);
        FollowersMatchEverywhere(Exec(c, steps).leaderLogs, a, b);
      }
    } else {
      var log, led := HarmIsHeld(c, steps);
      assert !Led(c, led);
    }
  }

  lemma FollowersMatchEverywhere(leaderLogs: map<nat, seq<LogEntry>>, a: seq<LogEntry>, b: seq<LogEntry>)
    requires Follows(leaderLogs, a) && Follows(leaderLogs, b)
    ensures Dense(a) && LogsMatch(a, b)
  {
    forall k | 0 <= k < |a| ensures a[k].index == k + 1 {
      assert EntryFollows(leaderLogs, a, k);
    }
    forall k | 0 <= k < |b| ensures b[k].index == k + 1 {
      assert EntryFollows(leaderLogs, b, k);
    }
    forall k | 0 <= k < |a| && k < |b| && a[k].term == b[k].term ensures a[..k + 1] == b[..k + 1] {
      FollowersMatch(leaderLogs, a, b, k);
    }
  }

  // ---- checked sends ----

  /** Every entry on the wire is truthful, or names a term that no entry has. */
  ghost predicate NetSafe(net: set<Message>, leaderLogs: map<nat, seq<LogEntry>>) {
    forall m :: m in net && m.Append? ==> AppendSafe(leaderLogs, m.ae)
  }

  ghost predicate AppendSafe(leaderLogs: map<nat, seq<LogEntry>>, ae: AppendEntries) {
    Truthful(leaderLogs, ae) || (ae.prevLogIndex > 0 && ae.prevLogTerm == 0)
  }

  /** The proposer's check tells exactly which messages are safe. */
  lemma CheckedSend(leaderLogs: map<nat, seq<LogEntry>>, victories: map<Slot, Victory>, n: Node, p: Proposal)
    requires Follows(leaderLogs, n.log) && ProposalHolds(victories, leaderLogs, p) && 0 !in leaderLogs
    ensures SafeSend(n.log, p) <==> AppendSafe(leaderLogs, EntryMessage(n, p.entry))
  {
    var at := p.entry.index - 1;
    if 0 < at <= |n.log| {
      assert EntryFollows(leaderLogs, n.log, at - 1);
    }
  }

  /** A message is safe exactly if every log that follows the leaders and accepts it still matches the log of the
      entry's leader; an unsafe one breaks the proposer's own log before the entry. */
  lemma SafeSendIff(c: Cluster, p: Proposal)
    requires LogInv(c) && p in c.proposals && p.leader in c.nodes
    ensures var ae := EntryMessage(c.nodes[p.leader], p.entry);
            SafeSend(c.nodes[p.leader].log, p) <==>
              forall log :: Follows(c.leaderLogs, log) && PrevOk(log, ae.prevLogIndex, ae.prevLogTerm) ==>
                LogsMatch(MergeEntries(log, ae.prevLogIndex, ae.entries), c.leaderLogs[p.entry.term])
  {
    hide LogsMatch;
    var n := c.nodes[p.leader];
    var ae := EntryMessage(n, p.entry);
    var l := c.leaderLogs[p.entry.term];
    assert ProposalHolds(c.victories, c.leaderLogs, p) && Follows(c.leaderLogs, n.log) && Follows(c.leaderLogs, l);
    CheckedSend(c.leaderLogs, c.victories, n, p);
    if SafeSend(n.log, p) {
      forall log | Follows(c.leaderLogs, log) && PrevOk(log, ae.prevLogIndex, ae.prevLogTerm)
        ensures LogsMatch(MergeEntries(log, ae.prevLogIndex, ae.entries), l)
      {
        RefusesZero(c.leaderLogs, log, ae);
        MergeFollows(c.leaderLogs, log, ae);
        FollowersMatchEverywhere(c.leaderLogs, MergeEntries(log, ae.prevLogIndex, ae.entries), l);
      }
    } else {
      var log := n.log[..ae.prevLogIndex];
      PrefixFollows(c.leaderLogs, n.log, ae.prevLogIndex);
      UntruthfulBreaks(c.leaderLogs, log, ae);
    }
  }

  lemma RefusesZero(leaderLogs: map<nat, seq<LogEntry>>, log: seq<LogEntry>, ae: AppendEntries)
    requires Follows(leaderLogs, log) && 0 !in leaderLogs && AppendSafe(leaderLogs, ae)
    requires PrevOk(log, ae.prevLogIndex, ae.prevLogTerm)
    ensures Truthful(leaderLogs, ae)
  {
    if ae.prevLogIndex > 0 {
      assert EntryFollows(leaderLogs, log, ae.prevLogIndex - 1);
    }
  }

  lemma SafeIsHarmless(c: Cluster, s: Step)
    requires LogInv(c) && NetSafe(c.net, c.leaderLogs) && Enabled(c, s)
    ensures HarmlessStep(c, s)
  {
    hide Follows;
    if s.AnswerAppend? && Writes(c.nodes[s.append.dst], s.append.ae) {
      assert Follows(c.leaderLogs, c.nodes[s.append.dst].log);
      RefusesZero(c.leaderLogs, c.nodes[s.append.dst].log, s.append.ae);
    }
  }

  lemma GrowthSafe(c: Cluster, b: map<nat, seq<LogEntry>>)
    requires LogInv(c) && NetSafe(c.net, c.leaderLogs) && Grows(c.leaderLogs, b)
    ensures NetSafe(c.net, b)
  {
    forall m | m in c.net && m.Append? ensures AppendSafe(b, m.ae) {
      assert AppendSafe(c.leaderLogs, m.ae) && AppendCarries(c.leaderLogs, m.ae);
    }
  }

  lemma SafeStepKeeps(c: Cluster, s: Step)
    requires ElectionInv(c) && LogInv(c) && NetSafe(c.net, c.leaderLogs) && Enabled(c, s) && SafeStep(c, s)
    ensures NetSafe(Apply(c, s).net, Apply(c, s).leaderLogs)
  {
    hide ElectionInv, LogInv, AppendSafe, HandleRequestVote, HandleAppendEntries, SafeSend;
    match s
    case SendEntry(p, peer) => SendKeepsSafe(c, p, peer);
    case SendHeartbeat(_, _) => HeartbeatSafe(c, c.nodes[s.i]);
    case CloseTick(i) =>
      if Wins(c, i) {
        FirstWin(c, i);
        GrowthSafe(c, Apply(c, s).leaderLogs);
      }
    case Propose(i, key, val) =>
      ProposeGrows(c, i, key, val);
      GrowthSafe(c, Apply(c, s).leaderLogs);
    case _ =>
  }

  lemma HeartbeatSafe(c: Cluster, n: Node)
    ensures AppendSafe(c.leaderLogs, BuildHeartbeat(n.id, n.currentTerm, n.commitIndex))
  {
  }

  lemma SendKeepsSafe(c: Cluster, p: Proposal, peer: Id)
    requires LogInv(c) && NetSafe(c.net, c.leaderLogs) && Enabled(c, SendEntry(p, peer))
    requires SafeSend(c.nodes[p.leader].log, p)
    ensures NetSafe(DoSendEntry(c, p, peer).net, c.leaderLogs)
  {
    hide Follows, SafeSend;
    assert ProposalHolds(c.victories, c.leaderLogs, p) && Follows(c.leaderLogs, c.nodes[p.leader].log);
    CheckedSend(c.leaderLogs, c.victories, c.nodes[p.leader], p);
  }

  lemma {:induction false} SafeRunIsHarmless(c: Cluster, steps: seq<Step>)
    requires ElectionInv(c) && LogInv(c) && NetSafe(c.net, c.leaderLogs) && IsSafeRun(c, steps)
    ensures IsHarmlessRun(c, steps)
    decreases |steps|
  {
    hide ElectionInv, LogInv, NetSafe, Enabled, Apply, HarmlessStep, SafeStep;
    if steps != [] {
      SafeIsHarmless(c, steps[0]);
      SafeStepKeeps(c, steps[0]);
      StepKeepsElectionInv(c, steps[0]);
      StepKeepsLogInv(c, steps[0]);
      SafeRunIsHarmless(Apply(c, steps[0]), steps[1..]);
    }
  }

  lemma InvFollows(c: Cluster, i: Id)
    requires LogInv(c) && i in c.nodes
    ensures Follows(c.leaderLogs, c.nodes[i].log)
  {
    hide Follows;
  }

  /** Log Matching: after any run whose proposers check what they send, every log is dense and entries of equal index
      and term are preceded by equal logs. */
  lemma LogMatching(peersOf: map<Id, seq<Id>>, steps: seq<Step>, i: Id, j: Id)
    requires StaticMembership(peersOf) && IsSafeRun(Init(peersOf), steps)
    ensures IsRun(Init(peersOf), steps)
    ensures var c := Exec(Init(peersOf), steps);
            i in c.nodes && j in c.nodes ==> Dense(c.nodes[i].log) && LogsMatch(c.nodes[i].log, c.nodes[j].log)
  {
    hide ElectionInv, LogInv;
    InitElectionInv(peersOf);
    InitLogInv(peersOf);
    SafeRunIsHarmless(Init(peersOf), steps);
    RunKeepsLogInv(Init(peersOf), steps);
    var c := Exec(Init(peersOf), steps);
    if i in c.nodes && j in c.nodes {
      InvFollows(c, i);
      InvFollows(c, j);
      FollowersMatchEverywhere(c.leaderLogs, c.nodes[i].log, c.nodes[j].log);
    }
  }

  /** A proposer that still leads the entry's term need not check. */
  lemma FreshIsSafe(c: Cluster, s: Step)
    requires LogInv(c) && Enabled(c, s) && FreshSend(c, s)
    ensures SafeStep(c, s)
  {
    if s.SendEntry? {
      assert ProposalHolds(c.victories, c.leaderLogs, s.p);
    }
  }

  lemma {:induction false} FreshRunIsSafe(c: Cluster, steps: seq<Step>)
    requires ElectionInv(c) && LogInv(c) && NetSafe(c.net, c.leaderLogs) && IsFreshRun(c, steps)
    ensures IsSafeRun(c, steps)
    decreases |steps|
  {
    hide ElectionInv, LogInv, NetSafe, Enabled, Apply, HarmlessStep, SafeStep, FreshSend;
    if steps != [] {
      FreshIsSafe(c, steps[0]);
      SafeIsHarmless(c, steps[0]);
      SafeStepKeeps(c, steps[0]);
      StepKeepsElectionInv(c, steps[0]);
      StepKeepsLogInv(c, steps[0]);
      FreshRunIsSafe(Apply(c, steps[0]), steps[1..]);
    }
  }
}
