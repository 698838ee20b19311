/** One Raft node and its handlers. */
module Raft {
  /* The state that `RaftNode` keeps, and its message handlers as functions on that state. */

  import opened Wrappers

  type Id = string

  datatype RaftState = Follower | Candidate | Leader

  datatype LogEntry = LogEntry(term: nat, index: nat, key: string, val: string)

  datatype RequestVote =
    RequestVote(term: nat, candidateId: Id, lastLogIndex: nat, lastLogTerm: nat)

  datatype VoteResponse = VoteResponse(term: nat, granted: bool)

  datatype AppendEntries =
    AppendEntries(term: nat, leaderId: Id, prevLogIndex: nat, prevLogTerm: nat,
                  entries: seq<LogEntry>, leaderCommit: nat)

  datatype AppendResponse = AppendResponse(term: nat, success: bool)

  datatype Node =
    Node(id: Id, peers: seq<Id>, currentTerm: nat, votedFor: Option<Id>, log: seq<LogEntry>,
         state: RaftState, commitIndex: nat, nextIndex: seq<nat>, matchIndex: seq<nat>)

  function NewNode(id: Id, peers: seq<Id>): Node {
    Node(id, peers, 0, None, [], Follower, 0, seq(|peers|, _ => 0), seq(|peers|, _ => 0))
  }

  /** The least number of members that is more than half of them. */
  function Majority(n: Node): (m: nat)
    ensures 2 * m > |n.peers| + 1 && 2 * (m - 1) <= |n.peers| + 1
  {
    (|n.peers| + 1) / 2 + 1
  }

  function LastLogIndex(log: seq<LogEntry>): nat {
    if log == [] then 0 else log[|log| - 1].index
  }

  function LastLogTerm(log: seq<LogEntry>): nat {
    if log == [] then 0 else log[|log| - 1].term
  }

  /** The election restriction: is a log ending in (term, index) at least as recent as `other`? */
  predicate UpToDate(term: nat, index: nat, otherTerm: nat, otherIndex: nat) {
    term > otherTerm || (term == otherTerm && index >= otherIndex)
  }

  function StartElection(n: Node): Node {
    n.(state := Candidate, currentTerm := n.currentTerm + 1, votedFor := Some(n.id))
  }

  function BecomeLeader(n: Node): Node {
    n.(state := Leader,
       nextIndex := seq(|n.peers|, _ => |n.log| + 1),
       matchIndex := seq(|n.peers|, _ => 0))
  }

  function NextEntry(n: Node, key: string, val: string): LogEntry {
    LogEntry(n.currentTerm, LastLogIndex(n.log) + 1, key, val)
  }

  function AppendEntry(n: Node, key: string, val: string): Node {
    n.(log := n.log + [NextEntry(n, key, val)])
  }

  /** Both handlers begin by stepping down to a higher term. */
  function StepDown(n: Node, term: nat): Node {
    if term > n.currentTerm then n.(currentTerm := term, state := Follower, votedFor := None) else n
  }

  predicate GrantsVote(n: Node, req: RequestVote) {
    var m := StepDown(n, req.term);
    && req.term >= m.currentTerm
    && (m.votedFor == None || m.votedFor == Some(req.candidateId))
    && UpToDate(req.lastLogTerm, req.lastLogIndex, LastLogTerm(n.log), LastLogIndex(n.log))
  }

  function HandleRequestVote(n: Node, req: RequestVote): (Node, VoteResponse) {
    var m := StepDown(n, req.term);
    if GrantsVote(n, req)
    then (m.(votedFor := Some(req.candidateId)), VoteResponse(m.currentTerm, true))
    else (m, VoteResponse(m.currentTerm, false))
  }

  predicate PrevOk(log: seq<LogEntry>, prevIndex: nat, prevTerm: nat) {
    prevIndex == 0 || (prevIndex <= |log| && log[prevIndex - 1].term == prevTerm)
  }

  /** The number of leading entries that the log already holds, with matching terms, from position `at`. */
  function Agreeing(log: seq<LogEntry>, at: nat, entries: seq<LogEntry>): (k: nat)
    requires at <= |log|
    ensures k <= |entries| && at + k <= |log|
    ensures forall j :: 0 <= j < k ==> log[at + j].term == entries[j].term
    ensures k < |entries| ==> at + k == |log| || log[at + k].term != entries[k].term
    decreases |entries|
  {
    if entries == [] || at == |log| || log[at].term != entries[0].term then 0
    else 1 + Agreeing(log, at + 1, entries[1..])
  }

  /** The log after an accepted AppendEntries: untouched when it already covers the entries,
      otherwise cut at the first disagreement and continued with the remaining entries. */
  function MergeEntries(log: seq<LogEntry>, at: nat, entries: seq<LogEntry>): seq<LogEntry>
    requires at <= |log|
  {
    var k := Agreeing(log, at, entries);
    if k == |entries| then log else log[..at + k] + entries[k..]
  }

  function HandleAppendEntries(n: Node, req: AppendEntries): (Node, AppendResponse) {
    var m := StepDown(n, req.term);
    if req.term < m.currentTerm then (m, AppendResponse(m.currentTerm, false))
    else
      var f := m.(state := Follower);
      if !PrevOk(f.log, req.prevLogIndex, req.prevLogTerm) then (f, AppendResponse(f.currentTerm, false))
      else
        (AcceptEntries(f, req), AppendResponse(f.currentTerm, true))
  }

  function AcceptEntries(n: Node, req: AppendEntries): Node
    requires PrevOk(n.log, req.prevLogIndex, req.prevLogTerm)
  {
    var log := MergeEntries(n.log, req.prevLogIndex, req.entries);
    n.(log := log,
       commitIndex := if req.leaderCommit > n.commitIndex then Min(req.leaderCommit, LastLogIndex(log)) else n.commitIndex)
  }

  function Min(a: nat, b: nat): nat {
    if a <= b then a else b
  }

  /** The AppendEntries that `send_append_entries` puts on the wire. */
  function BuildAppend(id: Id, term: nat, commit: nat, log: seq<LogEntry>, entries: seq<LogEntry>): AppendEntries {
    var prev := if entries == [] then LastLogIndex(log)
                else if entries[0].index == 0 then 0 else entries[0].index - 1;
    var prevTerm := if prev == 0 then 0 else if prev <= |log| then log[prev - 1].term else 0;
    AppendEntries(term, id, prev, prevTerm, entries, commit)
  }

  /** Heartbeats are built from an empty log, so their previous index is 0. */
  function BuildHeartbeat(id: Id, term: nat, commit: nat): AppendEntries {
    BuildAppend(id, term, commit, [], [])
  }
}
