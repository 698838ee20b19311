/** `RaftNode`, updated in place. */
module RaftNodes {
  /* Each method is the function of the same name on the fields. */

  import opened Wrappers
  import opened R = Raft

  lemma SliceSnoc<T>(s: seq<T>, from: nat, to: nat)
    requires from <= to < |s|
    ensures s[from..to + 1] == s[from..to] + [s[to]]
  {
  }

  /** The entry loop of `handle_append_entries`. */
  method Merge(log: seq<LogEntry>, prevIndex: nat, entries: seq<LogEntry>) returns (merged: seq<LogEntry>)
    requires prevIndex <= |log|
    ensures merged == MergeEntries(log, prevIndex, entries)
  {
    merged := log;
    ghost var agreed := Agreeing(log, prevIndex, entries);
    for i := 0 to |entries|
      invariant i <= agreed ==> merged == log
      invariant i > agreed ==> merged == log[..prevIndex + agreed] + entries[agreed..i]
    {
      var idx := prevIndex + i + 1;
      if idx <= |merged| && merged[idx - 1].term != entries[i].term {
        merged := merged[..idx - 1];
      }
      if idx > |merged| {
        merged := merged + [entries[i]];
      }
      if i >= agreed {
        SliceSnoc(entries, agreed, i);
      }
    }
  }

  // ---- what the answers mean ----

  /** A log that ends in (term, index) is no older than `log`: a later last term, or the same and no shorter. */
  ghost predicate AtLeastAsRecent(term: nat, index: nat, log: seq<LogEntry>) {
    log == [] || term > log[|log| - 1].term || (term == log[|log| - 1].term && index >= log[|log| - 1].index)
  }

  /** The entry before those of the request is at hand. */
  ghost predicate HasPrevious(log: seq<LogEntry>, req: AppendEntries) {
    req.prevLogIndex > 0 ==> req.prevLogIndex <= |log| && log[req.prevLogIndex - 1].term == req.prevLogTerm
  }

  /** The log now holds entries of the request's terms behind the previous one. Those it held already, and what it
      holds beyond them, are as before, unless one differed in term: from there on it holds the request's. */
  ghost predicate Accepted(before: seq<LogEntry>, req: AppendEntries, after: seq<LogEntry>) {
    var at, n := req.prevLogIndex, |req.entries|;
    && at <= |before| && at + n <= |after| && after[..at] == before[..at]
    && (forall k :: 0 <= k < n ==> AcceptedAt(before, req, after, k))
    && (if n == 0 || AgreesUpTo(before, req, n - 1) then after == before else |after| == at + n)
  }

  ghost predicate AcceptedAt(before: seq<LogEntry>, req: AppendEntries, after: seq<LogEntry>, k: nat)
    requires k < |req.entries|
  {
    && SameTerm(after, req, k)
    && if AgreesUpTo(before, req, k) then SameTerm(before, req, k) && after[req.prevLogIndex + k] == before[req.prevLogIndex + k]
       else after[req.prevLogIndex + k] == req.entries[k]
  }

  /** The log has an entry of the term of the request's k-th, in its place. */
  ghost predicate SameTerm(log: seq<LogEntry>, req: AppendEntries, k: nat)
    requires k < |req.entries|
  {
    req.prevLogIndex + k < |log| && log[req.prevLogIndex + k].term == req.entries[k].term
  }

  /** So it has for the first k + 1. */
  ghost predicate AgreesUpTo(log: seq<LogEntry>, req: AppendEntries, k: nat)
    requires k < |req.entries|
  {
    forall j :: 0 <= j <= k ==> SameTerm(log, req, j)
  }

  /** A higher commit index of the leader is taken over, up to the last entry. */
  ghost function CommitAfter(before: nat, leader: nat, log: seq<LogEntry>): nat {
    var last := if log == [] then 0 else log[|log| - 1].index;
    if leader <= before then before else if leader <= last then leader else last
  }

  lemma AgreesFor(log: seq<LogEntry>, req: AppendEntries)
    requires req.prevLogIndex <= |log|
    ensures var agreed := Agreeing(log, req.prevLogIndex, req.entries);
            && agreed <= |req.entries| && (forall j :: 0 <= j < agreed ==> SameTerm(log, req, j))
            && (agreed < |req.entries| ==> !SameTerm(log, req, agreed))
  {
  }

  lemma AgreedIff(log: seq<LogEntry>, req: AppendEntries, k: nat)
    requires req.prevLogIndex <= |log| && k < |req.entries|
    ensures AgreesUpTo(log, req, k) <==> k < Agreeing(log, req.prevLogIndex, req.entries)
  {
    hide Agreeing, SameTerm;
    AgreesFor(log, req);
  }

  lemma MergeAcceptsAt(log: seq<LogEntry>, req: AppendEntries, k: nat)
    requires req.prevLogIndex <= |log| && k < |req.entries|
    ensures AcceptedAt(log, req, MergeEntries(log, req.prevLogIndex, req.entries), k)
  {
    hide AgreesUpTo, Agreeing;
    AgreedIff(log, req, k);
    AgreesFor(log, req);
  }

  lemma MergeAccepts(log: seq<LogEntry>, req: AppendEntries)
    requires HasPrevious(log, req)
    ensures Accepted(log, req, MergeEntries(log, req.prevLogIndex, req.entries))
  {
    hide AgreesUpTo, AcceptedAt;
    forall k | 0 <= k < |req.entries| ensures AcceptedAt(log, req, MergeEntries(log, req.prevLogIndex, req.entries), k) {
      MergeAcceptsAt(log, req, k);
    }
    if req.entries != [] {
      AgreedIff(log, req, |req.entries| - 1);
    }
  }

  class RaftNode {
    const id: Id
    var peers: seq<Id>
    var currentTerm: nat
    var votedFor: Option<Id>
    var log: seq<LogEntry>
    var state: RaftState
    var commitIndex: nat
    var nextIndex: seq<nat>
    var matchIndex: seq<nat>

    function Abs(): Node
      reads this
    {
      Node(id, peers, currentTerm, votedFor, log, state, commitIndex, nextIndex, matchIndex)
    }

    constructor (id: Id, peers: seq<Id>)
      ensures Abs() == NewNode(id, peers)
    {
      this.id, this.peers, currentTerm, votedFor, log, state := id, peers, 0, None, [], Follower;
      commitIndex, nextIndex, matchIndex := 0, seq(|peers|, _ => 0), seq(|peers|, _ => 0);
    }

    method StartElection()
      modifies this
      ensures Abs() == R.StartElection(old(Abs()))
      ensures state == Candidate && currentTerm == old(currentTerm) + 1 && votedFor == Some(id)
      ensures unchanged(`peers, `log, `commitIndex, `nextIndex, `matchIndex)
    {
      state := Candidate;
      currentTerm := currentTerm + 1;
      votedFor := Some(id);
    }

    method BecomeLeader()
      modifies this
      ensures Abs() == R.BecomeLeader(old(Abs()))
      ensures state == Leader && |nextIndex| == |matchIndex| == |peers|
      ensures forall p :: 0 <= p < |peers| ==> nextIndex[p] == |log| + 1 && matchIndex[p] == 0
      ensures unchanged(`peers, `currentTerm, `votedFor, `log, `commitIndex)
    {
      state := Leader;
      var n := |peers|;
      var next := |log| + 1;
      nextIndex := seq(n, _ => next);
      matchIndex := seq(n, _ => 0);
    }

    method AppendEntry(key: string, val: string) returns (e: LogEntry)
      modifies this
      ensures e == NextEntry(old(Abs()), key, val)
      ensures Abs() == R.AppendEntry(old(Abs()), key, val)
      ensures log == old(log) + [e] && e.term == currentTerm && e.key == key && e.val == val
      ensures e.index == 1 + if old(log) == [] then 0 else old(log)[|old(log)| - 1].index
      ensures unchanged(`peers, `currentTerm, `votedFor, `state, `commitIndex, `nextIndex, `matchIndex)
    {
      e := LogEntry(currentTerm, LastLogIndex(log) + 1, key, val);
      log := log + [e];
    }

    method HandleRequestVote(req: RequestVote) returns (resp: VoteResponse)
      modifies this
      ensures (Abs(), resp) == R.HandleRequestVote(old(Abs()), req)
      ensures resp.granted <==>
        && req.term >= old(currentTerm)
        && (req.term == old(currentTerm) ==> old(votedFor) == None || old(votedFor) == Some(req.candidateId))
        && AtLeastAsRecent(req.lastLogTerm, req.lastLogIndex, log)
      ensures resp.term == currentTerm == if req.term > old(currentTerm) then req.term else old(currentTerm)
      ensures votedFor == if resp.granted then Some(req.candidateId) else if req.term > old(currentTerm) then None else old(votedFor)
      ensures state == if req.term > old(currentTerm) then Follower else old(state)
      ensures unchanged(`peers, `log, `commitIndex, `nextIndex, `matchIndex)
    {
      if req.term > currentTerm {
        currentTerm, state, votedFor := req.term, Follower, None;
      }
      if req.term < currentTerm {
        return VoteResponse(currentTerm, false);
      }
      if votedFor.Some? && votedFor.value != req.candidateId {
        return VoteResponse(currentTerm, false);
      }
      var lastIndex, lastTerm := LastLogIndex(log), LastLogTerm(log);
      if req.lastLogTerm < lastTerm || (req.lastLogTerm == lastTerm && req.lastLogIndex < lastIndex) {
        return VoteResponse(currentTerm, false);
      }
      votedFor := Some(req.candidateId);
      resp := VoteResponse(currentTerm, true);
    }

    method AcceptEntries(req: AppendEntries)
      requires PrevOk(log, req.prevLogIndex, req.prevLogTerm)
      modifies this
      ensures Abs() == R.AcceptEntries(old(Abs()), req)
    {
      var merged := Merge(log, req.prevLogIndex, req.entries);
      log := merged;
      if req.leaderCommit > commitIndex {
        commitIndex := Min(req.leaderCommit, LastLogIndex(log));
      }
    }

    method HandleAppendEntries(req: AppendEntries) returns (resp: AppendResponse)
      modifies this
      ensures (Abs(), resp) == R.HandleAppendEntries(old(Abs()), req)
      ensures resp.success <==> req.term >= old(currentTerm) && HasPrevious(old(log), req)
      ensures resp.term == currentTerm == if req.term > old(currentTerm) then req.term else old(currentTerm)
      ensures votedFor == if req.term > old(currentTerm) then None else old(votedFor)
      ensures state == if req.term >= old(currentTerm) then Follower else old(state)
      ensures resp.success ==> Accepted(old(log), req, log) && commitIndex == CommitAfter(old(commitIndex), req.leaderCommit, log)
      ensures !resp.success ==> unchanged(`log, `commitIndex)
      ensures unchanged(`peers, `nextIndex, `matchIndex)
    {
      hide Accepted, MergeEntries;
      if HasPrevious(log, req) {
        MergeAccepts(log, req);
      }
      if req.term > currentTerm {
        currentTerm, state, votedFor := req.term, Follower, None;
      }
      if req.term < currentTerm {
        return AppendResponse(currentTerm, false);
      }
      state := Follower;
      var prevOk;
      if req.prevLogIndex == 0 {
        prevOk := true;
      } else if req.prevLogIndex > |log| {
        prevOk := false;
      } else {
        prevOk := log[req.prevLogIndex - 1].term == req.prevLogTerm;
      }
      if !prevOk {
        return AppendResponse(currentTerm, false);
      }
      AcceptEntries(req);
      resp := AppendResponse(currentTerm, true);
    }
  }
}
