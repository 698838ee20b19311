/** Catching up with a stream. */
module StreamLive {
  /* Whatever has happened, one more epoch can process and commit everything that the logs hold. */

  import opened Wrappers
  import opened Permutations
  import opened Stream
  import opened StreamEpochs

  /** `s` can be reached from `z`, and keeps the invariant. */
  ghost predicate On(z: State, s: State) {
    |z.committed| == |z.logs| && |s.committed| == |s.logs| && Reaches(z, s) && Inv(false, s)
  }

  lemma Go(z: State, s: State, step: Step)
    requires On(z, s) && Enabled(s, step)
    ensures On(z, Next(s, step))
  {
    hide Reaches, Inv, Enabled, Next;
    ReachesNext(z, s, step);
    StepKeepsInv(false, s, step);
  }

  // ---- reading and planning ----

  lemma {:induction false} ReadAll(z: State, s: State) returns (t: State)
    requires On(z, s) && s.epoch.Some? && s.epoch.value.Sizing? && s.epoch.value.read <= |s.logs|
    ensures On(z, t) && t.epoch.Some? && t.epoch.value.Sizing? && t.epoch.value.read == |t.logs| && t.logs == s.logs
    ensures t.epoch.value.sized.cfg == s.epoch.value.sized.cfg
    decreases |s.logs| - s.epoch.value.read
  {
    hide Reaches, Inv;
    if s.epoch.value.read == |s.logs| {
      t := s;
    } else {
      Go(z, s, Read);
      t := ReadAll(z, Next(s, Read));
    }
  }

  /** Every partition planned so far was planned up to the end of its log. */
  ghost predicate ToTheEnd(s: State) {
    s.epoch.Some? && s.epoch.value.Planning? && |s.epoch.value.high| <= |s.logs|
    && forall p :: 0 <= p < |s.epoch.value.high| ==> s.epoch.value.high[p] == |s.logs[p]|
  }

  lemma CommittedWithin(s: State)
    requires Inv(false, s)
    ensures Base(s.logs, s.committed)
  {
  }

  lemma {:induction false} PlanAll(z: State, s: State) returns (t: State)
    requires On(z, s) && ToTheEnd(s)
    ensures On(z, t) && ToTheEnd(t) && |t.epoch.value.high| == |t.logs| && t.logs == s.logs
    ensures t.epoch.value.sized == s.epoch.value.sized
    decreases |s.logs| - |s.epoch.value.high|
  {
    hide Reaches, Inv, Units;
    if |s.epoch.value.high| == |s.logs| {
      t := s;
    } else {
      Go(z, s, Plan);
      CommittedWithin(s);
      t := PlanAll(z, Next(s, Plan));
    }
  }

  // ---- running ----

  /** The epoch runs with idle threads, some of them stopped once the queue is empty, and planned every log to its end. */
  ghost predicate Idling(s: State) {
    && s.epoch.Some? && s.epoch.value.Running? && |s.epoch.value.high| == |s.logs| && s.epoch.value.workers != []
    && (forall p :: 0 <= p < |s.logs| ==> s.epoch.value.high[p] == |s.logs[p]|)
    && forall w :: 0 <= w < |s.epoch.value.workers| ==> s.epoch.value.workers[w].Ready? || s.epoch.value.workers[w].Stopped?
  }

  lemma MayMark(s: State, w: nat)
    requires Inv(false, s) && InRun(s, w) && s.epoch.value.workers[w].Marking?
    ensures Enabled(s, Mark(w))
  {
    hide RecordsFor, Got, Once;
    assert s.epoch.value.workers[w].u in s.epoch.value.processed;
  }

  /** One thread takes a unit from the queue, processes it and records its progress. */
  lemma OneUnit(z: State, s: State) returns (t: State)
    requires On(z, s) && Idling(s) && s.epoch.value.queue != [] && s.epoch.value.workers[0].Ready?
    ensures On(z, t) && Idling(t) && t.logs == s.logs && t.epoch.value.workers[0].Ready?
    ensures |t.epoch.value.queue| == |s.epoch.value.queue| - 1
  {
    hide Reaches, Inv;
    Go(z, s, Steal(0));
    var s1 := Next(s, Steal(0));
    Go(z, s1, Deliver(0));
    var s2 := Next(s1, Deliver(0));
    MayMark(s2, 0);
    Go(z, s2, Mark(0));
    t := Next(s2, Mark(0));
  }

  lemma {:induction false} AllUnits(z: State, s: State) returns (t: State)
    requires On(z, s) && Idling(s) && s.epoch.value.workers[0].Ready?
    ensures On(z, t) && Idling(t) && t.logs == s.logs && t.epoch.value.queue == []
    decreases |s.epoch.value.queue|
  {
    hide On;
    if s.epoch.value.queue == [] {
      t := s;
    } else {
      var s1 := OneUnit(z, s);
      t := AllUnits(z, s1);
    }
  }

  lemma {:induction false} AllStop(z: State, s: State, k: nat) returns (t: State)
    requires On(z, s) && Idling(s) && s.epoch.value.queue == [] && k <= |s.epoch.value.workers|
    requires forall w :: 0 <= w < k ==> s.epoch.value.workers[w].Stopped?
    ensures On(z, t) && Idling(t) && t.logs == s.logs && Enabled(t, Finish)
    decreases |s.epoch.value.workers| - k
  {
    hide Reaches, Inv;
    if k == |s.epoch.value.workers| {
      t := s;
    } else if s.epoch.value.workers[k].Stopped? {
      t := AllStop(z, s, k + 1);
    } else {
      Go(z, s, Stop(k));
      t := AllStop(z, Next(s, Stop(k)), k + 1);
    }
  }

  // ---- committing ----

  ghost predicate CaughtUp(s: State) {
    |s.committed| == |s.logs| && forall p :: 0 <= p < |s.logs| ==> s.committed[p] == |s.logs[p]|
  }

  lemma CommitsDone(s: State)
    requires Inv(false, s) && s.epoch.Some? && s.epoch.value.Committing? && s.epoch.value.next >= |s.epoch.value.progress|
    ensures s.committed == s.epoch.value.progress
  {
    hide RecordsFor, Got;
  }

  lemma {:induction false} CommitAll(z: State, s: State) returns (t: State)
    requires On(z, s) && s.epoch.Some? && s.epoch.value.Committing? && |s.epoch.value.progress| == |s.logs|
    requires s.epoch.value.next <= |s.logs|
    ensures On(z, t) && t.epoch.None? && t.logs == s.logs && t.committed == s.epoch.value.progress
    decreases |s.logs| - s.epoch.value.next
  {
    hide Reaches, Inv;
    if s.epoch.value.next == |s.logs| {
      CommitsDone(s);
      Go(z, s, End);
      t := Next(s, End);
    } else {
      Go(z, s, Commit);
      t := CommitAll(z, Next(s, Commit));
    }
  }

  lemma FinishAll(z: State, s: State) returns (t: State)
    requires On(z, s) && Idling(s) && Enabled(s, Finish)
    ensures On(z, t) && t.epoch.None? && t.logs == s.logs && CaughtUp(t)
  {
    hide Reaches, Inv;
    Go(z, s, Finish);
    FinishCommits(false, s);
    t := CommitAll(z, Next(s, Finish));
  }

  /** Nothing planned means nothing was left. */
  lemma NothingToPlan(s: State)
    requires Inv(false, s) && ToTheEnd(s) && |s.epoch.value.high| == |s.logs| && s.epoch.value.units == []
    ensures CaughtUp(s)
  {
    hide RecordsFor, Got;
    forall p | 0 <= p < |s.logs| ensures s.committed[p] == |s.logs[p]| {
      assert PlannedTo(p, s.logs[p], s.committed[p], s.epoch.value.units, s.epoch.value.high[p]);
    }
  }

  const ONE: Config := Config(1, 1, 1, 1, 1)

  /** From between epochs, a whole epoch with one local thread. */
  lemma WholeEpoch(z: State, s: State) returns (t: State)
    requires On(z, s) && s.epoch.None?
    ensures On(z, t) && t.epoch.None? && t.logs == s.logs && CaughtUp(t)
  {
    hide Reaches, Inv;
    Go(z, s, Begin(ONE));
    var s1 := ReadAll(z, Next(s, Begin(ONE)));
    Go(z, s1, Size);
    var s2 := PlanAll(z, Next(s1, Size));
    if s2.epoch.value.units == [] {
      NothingToPlan(s2);
      Go(z, s2, Skip);
      t := Next(s2, Skip);
    } else {
      Go(z, s2, Start);
      var s3 := Next(s2, Start);
      assert s3.epoch.value.workers[0] == Ready;
      var s4 := AllUnits(z, s3);
      var s5 := AllStop(z, s4, 0);
      t := FinishAll(z, s5);
    }
  }

  /** After any run, crashes included, the run can go on so that everything the logs hold is committed. */
  lemma CanCatchUp(partitions: nat, steps: seq<Step>)
    requires IsRun(Init(partitions), steps)
    ensures var s := Exec(Init(partitions), steps);
            |s.committed| == |s.logs|
            && exists more :: IsRun(s, more) && Exec(s, more).epoch.None? && Exec(s, more).logs == s.logs && CaughtUp(Exec(s, more))
  {
    InitInv(false, partitions);
    RunKeepsInv(false, Init(partitions), steps);
    hide IsRun, Exec, Inv;
    var s := Exec(Init(partitions), steps);
    CommittedWithin(s);
    NoSteps(s);
    assert On(s, s);
    var s1 := s;
    if s.epoch.Some? {
      Go(s, s, Abort);
      s1 := Next(s, Abort);
    }
    var t := WholeEpoch(s, s1);
    var more :| IsRun(s, more) && Exec(s, more) == t;
  }
}
