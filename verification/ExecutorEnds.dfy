/** When a ramped query can end. */
module ExecutorEnds {
  /* From a reachable state some run reaches the count exactly if no handler has panicked with a morsel in its hands. */

  import opened Wrappers
  import opened Permutations
  import opened Morsels
  import opened Executor

  /** A handler that stopped with a morsel it could not send. */
  ghost predicate Lost(t: Thread) {
    t.phase == Over && t.holding.Some?
  }

  /** Only local threads gather, and whoever is draining or over has nothing in hand, apart from lost morsels. */
  ghost predicate Tidy(threads: seq<Thread>) {
    forall t :: 0 <= t < |threads| ==> TidyThread(threads[t])
  }

  ghost predicate TidyThread(t: Thread) {
    && (t.remote ==> t.mine == [] && t.phase != Draining)
    && (!t.remote && t.phase != Working ==> t.holding.None?)
    && (t.phase == Over ==> t.mine == [])
  }

  lemma StepKeepsTidy(exec: nat -> Partial, s: State, step: Step)
    requires Tidy(s.threads) && Enabled(s, step)
    ensures Tidy(Next(exec, s, step).threads)
  {
    hide MergePartial;
  }

  lemma {:induction false} RunKeepsTidy(exec: nat -> Partial, s: State, steps: seq<Step>)
    requires Tidy(s.threads) && IsRun(exec, s, steps)
    ensures Tidy(Exec(exec, s, steps).threads)
    decreases |steps|
  {
    hide Next, Enabled, Tidy;
    if steps != [] {
      StepKeepsTidy(exec, s, steps[0]);
      RunKeepsTidy(exec, Next(exec, s, steps[0]), steps[1..]);
    }
  }

  // ---- a lost morsel stays lost ----

  ghost predicate LostAt(s: State, t: nat) {
    t < |s.threads| && s.threads[t].remote && Lost(s.threads[t])
  }

  lemma StepKeepsLost(exec: nat -> Partial, s: State, step: Step, t: nat)
    requires LostAt(s, t) && Enabled(s, step)
    ensures LostAt(Next(exec, s, step), t)
  {
    hide MergePartial;
  }

  lemma {:induction false} RunKeepsLost(exec: nat -> Partial, s: State, steps: seq<Step>, t: nat)
    requires LostAt(s, t) && IsRun(exec, s, steps)
    ensures LostAt(Exec(exec, s, steps), t)
    decreases |steps|
  {
    hide Next, Enabled, LostAt;
    if steps != [] {
      StepKeepsLost(exec, s, steps[0], t);
      RunKeepsLost(exec, Next(exec, s, steps[0]), steps[1..], t);
    }
  }

  lemma LostIsShort(exec: nat -> Partial, morsels: seq<nat>, s: State, t: nat)
    requires Inv(exec, morsels, s) && LostAt(s, t)
    ensures s.done < |morsels|
  {
    hide Held, Pending, Locals, Results;
    var rest, pending := Split(s.threads, t, s.threads[t]);
    assert s.threads[t := s.threads[t]] == s.threads;
    assert |multiset(morsels)| == |multiset(s.queue)| + |rest| + |multiset(HeldBy(s.threads[t]))| + |multiset(s.merged)|;
  }

  // ---- without one the count can be reached ----

  function Duty(t: Thread): nat {
    (if t.uncounted > 0 then 1 else 0) + (if t.holding.Some? && t.phase != Over then 3 else 0)
    + if t.remote then 0 else if t.phase == Working then 3 else if t.phase == Draining then 2 else 0
  }

  function Duties(threads: seq<Thread>): nat {
    if threads == [] then 0 else Duties(threads[..|threads| - 1]) + Duty(threads[|threads| - 1])
  }

  lemma {:induction false} DutiesUpdate(threads: seq<Thread>, t: nat, x: Thread)
    requires t < |threads|
    ensures Duties(threads[t := x]) + Duty(threads[t]) == Duties(threads) + Duty(x)
    decreases |threads|
  {
    hide Duty;
    var n := |threads| - 1;
    if t < n {
      DutiesUpdate(threads[..n], t, x);
      assert threads[t := x][..n] == threads[..n][t := x];
    } else {
      assert threads[t := x][..n] == threads[..n];
    }
  }

  ghost predicate NoneLost(threads: seq<Thread>) {
    forall t :: 0 <= t < |threads| ==> !Lost(threads[t])
  }

  /** Threads with nothing to do. */
  ghost predicate Quiet(threads: seq<Thread>) {
    forall t :: 0 <= t < |threads| ==> Duty(threads[t]) == 0
  }

  lemma {:induction false} QuietHolds(threads: seq<Thread>)
    requires Tidy(threads) && NoneLost(threads) && Quiet(threads)
    ensures Held(threads) == multiset{} && Pending(threads) == 0
    decreases |threads|
  {
    if threads != [] {
      QuietHolds(threads[..|threads| - 1]);
    }
  }

  /** The next step of a thread with something to do. */
  function Move(t: nat, x: Thread): Step {
    if x.uncounted > 0 then Count(t)
    else if x.holding.Some? then (if x.remote then Reply(t) else Absorb(t))
    else if x.phase == Working then SeeEmpty(t) else Flush(t)
  }

  lemma MoveIsEnabled(exec: nat -> Partial, s: State, t: nat)
    requires t < |s.threads| && Tidy(s.threads) && NoneLost(s.threads) && Duty(s.threads[t]) > 0
    requires s.queue == [] || s.threads[t].uncounted > 0 || s.threads[t].holding.Some? || s.threads[t].phase != Working
    ensures Enabled(s, Move(t, s.threads[t]))
    ensures var s' := Next(exec, s, Move(t, s.threads[t]));
            s'.queue == s.queue && |s'.threads| == |s.threads| && s'.threads == s.threads[t := s'.threads[t]]
            && Duty(s'.threads[t]) < Duty(s.threads[t]) && NoneLost(s'.threads)
  {
    hide MergePartial;
    assert TidyThread(s.threads[t]) && !Lost(s.threads[t]);
  }

  /** A fresh worker takes the last morsel of the queue. */
  lemma HelpIsEnabled(exec: nat -> Partial, s: State)
    requires s.queue != [] && NoneLost(s.threads)
    ensures Enabled(s, Connect)
    ensures var s1 := Next(exec, s, Connect);
            && Enabled(s1, Pop(|s.threads|))
            && var s2 := Next(exec, s1, Pop(|s.threads|));
               |s2.queue| == |s.queue| - 1 && NoneLost(s2.threads) && Duties(s2.threads) == Duties(s.threads) + 3
  {
    var s1 := Next(exec, s, Connect);
    var s2 := Next(exec, s1, Pop(|s.threads|));
    assert s1.threads[..|s.threads|] == s.threads;
    DutiesUpdate(s1.threads, |s.threads|, s2.threads[|s.threads|]);
  }

  lemma {:induction false} CanReach(exec: nat -> Partial, morsels: seq<nat>, s: State) returns (steps: seq<Step>)
    requires Inv(exec, morsels, s) && Tidy(s.threads) && NoneLost(s.threads)
    ensures IsRun(exec, s, steps) && Exec(exec, s, steps).done >= |morsels|
    decreases 5 * |s.queue| + Duties(s.threads)
  {
    hide Inv, Tidy, NoneLost, Duties, Duty, Enabled, Next;
    if s.queue != [] {
      HelpIsEnabled(exec, s);
      var s1 := Next(exec, s, Connect);
      KeepsAll(exec, morsels, s, Connect);
      KeepsAll(exec, morsels, s1, Pop(|s.threads|));
      var rest := CanReach(exec, morsels, Next(exec, s1, Pop(|s.threads|)));
      assert ([Pop(|s.threads|)] + rest)[1..] == rest;
      steps := [Connect] + ([Pop(|s.threads|)] + rest);
    } else if t: nat :| t < |s.threads| && Duty(s.threads[t]) > 0 {
      MoveIsEnabled(exec, s, t);
      var step := Move(t, s.threads[t]);
      var s' := Next(exec, s, step);
      DutiesUpdate(s.threads, t, s'.threads[t]);
      KeepsAll(exec, morsels, s, step);
      var rest := CanReach(exec, morsels, s');
      steps := [step] + rest;
    } else {
      QuietHolds(s.threads);
      NothingLeft(exec, morsels, s);
      steps := [];
    }
  }

  lemma KeepsAll(exec: nat -> Partial, morsels: seq<nat>, s: State, step: Step)
    requires Inv(exec, morsels, s) && Tidy(s.threads) && Enabled(s, step)
    ensures Inv(exec, morsels, Next(exec, s, step)) && Tidy(Next(exec, s, step).threads)
  {
    hide Next, Enabled, Once, Counted, Locals, Results, Tidy;
    StepKeepsOnce(exec, morsels, s, step);
    StepKeepsCounted(exec, s, step);
    StepKeepsValues(exec, s, step);
    StepKeepsTidy(exec, s, step);
  }

  lemma NothingLeft(exec: nat -> Partial, morsels: seq<nat>, s: State)
    requires Inv(exec, morsels, s) && s.queue == [] && Held(s.threads) == multiset{} && Pending(s.threads) == 0
    ensures s.done == |morsels|
  {
    hide Held, Pending, Locals, Results;
    assert |multiset(morsels)| == |multiset(s.merged)|;
  }

  /** Whatever has happened, the query can still end, with workers that may yet connect, exactly if no panicked
      handler holds a morsel. */
  lemma CanEndIff(exec: nat -> Partial, morsels: seq<nat>, localThreads: nat, steps: seq<Step>)
    requires IsRun(exec, Init(morsels, localThreads), steps)
    ensures var s := Exec(exec, Init(morsels, localThreads), steps);
            (exists more :: IsRun(exec, s, more) && Exec(exec, s, more).done >= |morsels|) <==> NoneLost(s.threads)
  {
    hide Once, Counted, Locals, Results, Lost;
    InitInv(exec, morsels, localThreads);
    RunKeepsInv(exec, morsels, Init(morsels, localThreads), steps);
    assert Tidy(Init(morsels, localThreads).threads);
    RunKeepsTidy(exec, Init(morsels, localThreads), steps);
    hide IsRun, Exec, Init, Tidy, Inv;
    var s := Exec(exec, Init(morsels, localThreads), steps);
    if NoneLost(s.threads) {
      var more := CanReach(exec, morsels, s);
    } else {
      var t: nat :| t < |s.threads| && Lost(s.threads[t]);
      LostIsRemote(s.threads, t);
      forall more | IsRun(exec, s, more) ensures Exec(exec, s, more).done < |morsels| {
        RunKeepsLost(exec, s, more, t);
        RunKeepsInv(exec, morsels, s, more);
        LostIsShort(exec, morsels, Exec(exec, s, more), t);
      }
    }
  }

  lemma LostIsRemote(threads: seq<Thread>, t: nat)
    requires Tidy(threads) && t < |threads| && Lost(threads[t])
    ensures threads[t].remote
  {
  }
}
