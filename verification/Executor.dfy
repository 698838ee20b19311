/** The ramped morsel executor. */
module Executor {
  /* A shared queue of morsels, local threads, and remote workers that join late and may die. */

  import opened Wrappers
  import opened Permutations
  import opened Monoids
  import opened Morsels

  datatype Phase = Working | Draining | Over

  /** A local thread gathers a partial result of its own; a handler waits for the reply of a remote worker. Either
      merges into the shared result first and adds to the counter afterwards. `mine` are the morsels in `local`. */
  datatype Thread = Thread(remote: bool, local: Partial, mine: seq<nat>, holding: Option<nat>, uncounted: nat, phase: Phase)

  /** `merged` are the morsels whose partial results are in `result`. */
  datatype State = State(queue: seq<nat>, result: Partial, merged: seq<nat>, done: nat, threads: seq<Thread>)

  datatype Step =
    | Connect                // a remote worker dials in
    | Pop(t: nat)            // take a morsel from the queue
    | SeeEmpty(t: nat)       // or find it empty
    | Absorb(t: nat)         // a local thread executes the morsel it holds
    | Flush(t: nat)          // and in the end merges what it gathered
    | Reply(t: nat)          // a worker's partial result arrives and is merged
    | Die(t: nat)            // a worker is lost; its morsel goes back on the queue
    | Panic(t: nat)          // a handler cannot even send the morsel; it stops, still holding it
    | Count(t: nat)          // the counter catches up with a merge

  function NewThread(remote: bool): Thread {
    Thread(remote, NONE, [], None, 0, Working)
  }

  ghost predicate Enabled(s: State, step: Step) {
    match step
    case Connect => true
    case Pop(t) => t < |s.threads| && Idle(s.threads[t]) && s.queue != []
    case SeeEmpty(t) => t < |s.threads| && Idle(s.threads[t]) && s.queue == []
    case Absorb(t) => t < |s.threads| && !s.threads[t].remote && s.threads[t].holding.Some?
    case Flush(t) => t < |s.threads| && !s.threads[t].remote && s.threads[t].phase == Draining
    case Reply(t) => t < |s.threads| && s.threads[t].remote && s.threads[t].phase == Working && s.threads[t].holding.Some?
    case Die(t) => t < |s.threads| && s.threads[t].remote && s.threads[t].phase == Working && s.threads[t].uncounted == 0
    case Panic(t) => t < |s.threads| && s.threads[t].remote && s.threads[t].phase == Working && s.threads[t].holding.Some?
    case Count(t) => t < |s.threads| && s.threads[t].uncounted > 0
  }

  ghost predicate Idle(t: Thread) {
    t.phase == Working && t.holding.None? && t.uncounted == 0
  }

  /** One step; `exec` is `exec_morsel` on the block of a morsel. */
  ghost function Next(exec: nat -> Partial, s: State, step: Step): State
    requires Enabled(s, step)
  {
    match step
    case Connect => s.(threads := s.threads + [NewThread(true)])
    case Pop(t) =>
      var last := |s.queue| - 1;
      s.(queue := s.queue[..last], threads := s.threads[t := s.threads[t].(holding := Some(s.queue[last]))])
    case SeeEmpty(t) =>
      s.(threads := s.threads[t := s.threads[t].(phase := if s.threads[t].remote then Over else Draining)])
    case Absorb(t) =>
      var th := s.threads[t];
      var m := th.holding.value;
      s.(threads := s.threads[t := th.(local := MergePartial(th.local, exec(m)), mine := th.mine + [m], holding := None)])
    case Flush(t) =>
      var th := s.threads[t];
      s.(result := MergePartial(s.result, th.local), merged := s.merged + th.mine,
         threads := s.threads[t := th.(local := NONE, mine := [], uncounted := th.uncounted + |th.mine|, phase := Over)])
    case Reply(t) =>
      var th := s.threads[t];
      var m := th.holding.value;
      s.(result := MergePartial(s.result, exec(m)), merged := s.merged + [m],
         threads := s.threads[t := th.(holding := None, uncounted := th.uncounted + 1)])
    case Die(t) =>
      var th := s.threads[t];
      s.(queue := s.queue + (if th.holding.Some? then [th.holding.value] else []),
         threads := s.threads[t := th.(holding := None, phase := Over)])
    case Panic(t) => s.(threads := s.threads[t := s.threads[t].(phase := Over)])
    case Count(t) =>
      s.(done := s.done + s.threads[t].uncounted, threads := s.threads[t := s.threads[t].(uncounted := 0)])
  }

  ghost predicate IsRun(exec: nat -> Partial, s: State, steps: seq<Step>)
    decreases |steps|
  {
    steps == [] || (Enabled(s, steps[0]) && IsRun(exec, Next(exec, s, steps[0]), steps[1..]))
  }

  ghost function Exec(exec: nat -> Partial, s: State, steps: seq<Step>): State
    requires IsRun(exec, s, steps)
    decreases |steps|
  {
    if steps == [] then s else Exec(exec, Next(exec, s, steps[0]), steps[1..])
  }

  function Init(morsels: seq<nat>, localThreads: nat): State {
    State(morsels, NONE, [], 0, seq(localThreads, _ => NewThread(false)))
  }

  // ---- the invariant ----

  function HeldBy(t: Thread): seq<nat> {
    t.mine + if t.holding.Some? then [t.holding.value] else []
  }

  /** The morsels that some thread has taken and not merged yet. */
  function Held(threads: seq<Thread>): multiset<nat> {
    if threads == [] then multiset{} else Held(threads[..|threads| - 1]) + multiset(HeldBy(threads[|threads| - 1]))
  }

  function Pending(threads: seq<Thread>): nat {
    if threads == [] then 0 else Pending(threads[..|threads| - 1]) + threads[|threads| - 1].uncounted
  }

  /** Every morsel is on the queue, held by one thread, or merged: in one of these places, once. */
  ghost predicate Once(morsels: seq<nat>, queue: seq<nat>, threads: seq<Thread>, merged: seq<nat>) {
    multiset(queue) + Held(threads) + multiset(merged) == multiset(morsels)
  }

  ghost predicate Locals(exec: nat -> Partial, threads: seq<Thread>) {
    forall t :: 0 <= t < |threads| ==> threads[t].local == Total(Map(exec, threads[t].mine))
  }

  /** The shared result is the sum over the merged morsels. */
  ghost predicate Results(exec: nat -> Partial, result: Partial, merged: seq<nat>) {
    result == Total(Map(exec, merged))
  }

  ghost predicate Counted(done: nat, threads: seq<Thread>, merged: seq<nat>) {
    done + Pending(threads) == |merged|
  }

  ghost predicate Inv(exec: nat -> Partial, morsels: seq<nat>, s: State) {
    && Once(morsels, s.queue, s.threads, s.merged) && Counted(s.done, s.threads, s.merged)
    && Locals(exec, s.threads) && Results(exec, s.result, s.merged)
  }

  /** Changing one thread changes what all hold, and what is uncounted, by that thread's part. */
  lemma {:induction false} Split(threads: seq<Thread>, t: nat, x: Thread) returns (rest: multiset<nat>, pending: nat)
    requires t < |threads|
    ensures Held(threads) == rest + multiset(HeldBy(threads[t])) && Held(threads[t := x]) == rest + multiset(HeldBy(x))
    ensures Pending(threads) == pending + threads[t].uncounted && Pending(threads[t := x]) == pending + x.uncounted
    decreases |threads|
  {
    hide HeldBy;
    var n := |threads| - 1;
    var after := threads[t := x];
    if t == n {
      rest, pending := Held(threads[..n]), Pending(threads[..n]);
      assert after[..n] == threads[..n];
    } else {
      rest, pending := Split(threads[..n], t, x);
      assert after[..n] == threads[..n][t := x];
      rest, pending := rest + multiset(HeldBy(threads[n])), pending + threads[n].uncounted;
    }
  }

  lemma TotalSnoc(exec: nat -> Partial, ms: seq<nat>, m: nat)
    ensures Total(Map(exec, ms + [m])) == MergePartial(Total(Map(exec, ms)), exec(m))
  {
    hide MergePartial;
    assert (ms + [m])[..|ms|] == ms;
    var xs := Map(exec, ms);
    assert (xs + [exec(m)])[..|xs|] == xs;
  }

  lemma TotalConcat(exec: nat -> Partial, a: seq<nat>, b: seq<nat>)
    ensures Total(Map(exec, a + b)) == MergePartial(Total(Map(exec, a)), Total(Map(exec, b)))
  {
    hide MergePartial, Sum;
    PartialLaws();
    MapConcat(exec, a, b);
    SumConcat(MergePartial, NONE, Map(exec, a), Map(exec, b));
  }

  lemma HeldGain(threads: seq<Thread>, t: nat, x: Thread, more: seq<nat>)
    requires t < |threads| && HeldBy(x) == HeldBy(threads[t]) + more
    ensures Held(threads[t := x]) == Held(threads) + multiset(more)
  {
    hide Held, HeldBy;
    var _, _ := Split(threads, t, x);
  }

  lemma HeldLoss(threads: seq<Thread>, t: nat, x: Thread, less: seq<nat>)
    requires t < |threads| && multiset(HeldBy(threads[t])) == multiset(HeldBy(x)) + multiset(less)
    ensures Held(threads) == Held(threads[t := x]) + multiset(less)
  {
    hide Held, HeldBy;
    var _, _ := Split(threads, t, x);
  }

  lemma ConnectKeepsOnce(exec: nat -> Partial, morsels: seq<nat>, s: State)
    requires Once(morsels, s.queue, s.threads, s.merged)
    ensures var s' := Next(exec, s, Connect); Once(morsels, s'.queue, s'.threads, s'.merged)
  {
    hide Held;
    HeldSnoc(s.threads, NewThread(true));
  }

  lemma PopKeepsOnce(exec: nat -> Partial, morsels: seq<nat>, s: State, t: nat)
    requires Once(morsels, s.queue, s.threads, s.merged) && Enabled(s, Pop(t))
    ensures var s' := Next(exec, s, Pop(t)); Once(morsels, s'.queue, s'.threads, s'.merged)
  {
    hide Held;
    var s', m := Next(exec, s, Pop(t)), s.queue[|s.queue| - 1];
    assert s.queue == s'.queue + [m];
    assert HeldBy(s'.threads[t]) == HeldBy(s.threads[t]) + [m];
    HeldGain(s.threads, t, s'.threads[t], [m]);
  }

  /** Steps inside one thread move no morsel. */
  lemma InnerKeepsOnce(exec: nat -> Partial, morsels: seq<nat>, s: State, step: Step)
    requires Once(morsels, s.queue, s.threads, s.merged) && Enabled(s, step) && (step.SeeEmpty? || step.Absorb? || step.Panic? || step.Count?)
    ensures var s' := Next(exec, s, step); Once(morsels, s'.queue, s'.threads, s'.merged)
  {
    hide Held, MergePartial;
    var s', t := Next(exec, s, step), step.t;
    assert HeldBy(s'.threads[t]) == HeldBy(s.threads[t]) + [];
    HeldGain(s.threads, t, s'.threads[t], []);
  }

  /** Merging moves what a thread held to the shared result. */
  lemma MergeKeepsOnce(exec: nat -> Partial, morsels: seq<nat>, s: State, step: Step)
    requires Once(morsels, s.queue, s.threads, s.merged) && Enabled(s, step) && (step.Flush? || step.Reply?)
    ensures var s' := Next(exec, s, step); Once(morsels, s'.queue, s'.threads, s'.merged)
  {
    hide Held, MergePartial;
    var s', t := Next(exec, s, step), step.t;
    var less := if step.Flush? then s.threads[t].mine else [s.threads[t].holding.value];
    assert s'.merged == s.merged + less;
    HeldLoss(s.threads, t, s'.threads[t], less);
  }

  /** A dead worker's morsel is on the queue again. */
  lemma DieKeepsOnce(exec: nat -> Partial, morsels: seq<nat>, s: State, t: nat)
    requires Once(morsels, s.queue, s.threads, s.merged) && Enabled(s, Die(t))
    ensures var s' := Next(exec, s, Die(t)); Once(morsels, s'.queue, s'.threads, s'.merged)
  {
    hide Held;
    var s' := Next(exec, s, Die(t));
    var less := if s.threads[t].holding.Some? then [s.threads[t].holding.value] else [];
    assert s'.queue == s.queue + less;
    HeldLoss(s.threads, t, s'.threads[t], less);
  }

  lemma StepKeepsOnce(exec: nat -> Partial, morsels: seq<nat>, s: State, step: Step)
    requires Once(morsels, s.queue, s.threads, s.merged) && Enabled(s, step)
    ensures var s' := Next(exec, s, step); Once(morsels, s'.queue, s'.threads, s'.merged)
  {
    hide Next, Once;
    match step {
      case Connect => ConnectKeepsOnce(exec, morsels, s);
      case Pop(t) => PopKeepsOnce(exec, morsels, s, t);
      case Flush(t) => MergeKeepsOnce(exec, morsels, s, step);
      case Reply(t) => MergeKeepsOnce(exec, morsels, s, step);
      case Die(t) => DieKeepsOnce(exec, morsels, s, t);
      case _ => InnerKeepsOnce(exec, morsels, s, step);
    }
  }

  lemma HeldSnoc(threads: seq<Thread>, t: Thread)
    ensures Held(threads + [t]) == Held(threads) + multiset(HeldBy(t))
    ensures Pending(threads + [t]) == Pending(threads) + t.uncounted
  {
    assert (threads + [t])[..|threads|] == threads;
  }

  lemma StepKeepsCounted(exec: nat -> Partial, s: State, step: Step)
    requires Counted(s.done, s.threads, s.merged) && Enabled(s, step)
    ensures var s' := Next(exec, s, step); Counted(s'.done, s'.threads, s'.merged)
  {
    hide Pending, MergePartial;
    var s' := Next(exec, s, step);
    if step.Connect? {
      HeldSnoc(s.threads, NewThread(true));
    } else {
      var _, pending := Split(s.threads, step.t, s'.threads[step.t]);
    }
  }

  lemma StepKeepsValues(exec: nat -> Partial, s: State, step: Step)
    requires Locals(exec, s.threads) && Results(exec, s.result, s.merged) && Enabled(s, step)
    ensures var s' := Next(exec, s, step); Locals(exec, s'.threads) && Results(exec, s'.result, s'.merged)
  {
    hide Total, MergePartial, Map;
    NoTotal(exec);
    match step {
      case Absorb(t) => TotalSnoc(exec, s.threads[t].mine, s.threads[t].holding.value);
      case Flush(t) => TotalConcat(exec, s.merged, s.threads[t].mine);
      case Reply(t) => TotalSnoc(exec, s.merged, s.threads[t].holding.value);
      case _ =>
    }
  }

  lemma NoTotal(exec: nat -> Partial)
    ensures Total(Map(exec, [])) == NONE
  {
  }

  lemma {:induction false} RunKeepsInv(exec: nat -> Partial, morsels: seq<nat>, s: State, steps: seq<Step>)
    requires Inv(exec, morsels, s) && IsRun(exec, s, steps)
    ensures Inv(exec, morsels, Exec(exec, s, steps))
    decreases |steps|
  {
    hide Next, Enabled, Once, Counted, Locals, Results;
    if steps != [] {
      StepKeepsOnce(exec, morsels, s, steps[0]);
      StepKeepsCounted(exec, s, steps[0]);
      StepKeepsValues(exec, s, steps[0]);
      RunKeepsInv(exec, morsels, Next(exec, s, steps[0]), steps[1..]);
    }
  }

  lemma {:induction false} NothingHeld(n: nat)
    ensures Held(seq(n, _ => NewThread(false))) == multiset{} && Pending(seq(n, _ => NewThread(false))) == 0
  {
    if n > 0 {
      NothingHeld(n - 1);
      assert seq(n, _ => NewThread(false))[..n - 1] == seq(n - 1, _ => NewThread(false));
    }
  }

  lemma InitInv(exec: nat -> Partial, morsels: seq<nat>, localThreads: nat)
    ensures Inv(exec, morsels, Init(morsels, localThreads))
  {
    NothingHeld(localThreads);
    NoTotal(exec);
  }

  /** Exactly once, whatever the steals, late joins and deaths: in every reachable state each morsel is on the
      queue, held by one thread or merged, and when the counter reaches the number of morsels the shared result
      is the sequential merge over all of them, each once. */
  lemma ExactlyOnce(exec: nat -> Partial, morsels: seq<nat>, localThreads: nat, steps: seq<Step>)
    requires IsRun(exec, Init(morsels, localThreads), steps)
    ensures var s := Exec(exec, Init(morsels, localThreads), steps);
            && Once(morsels, s.queue, s.threads, s.merged) && s.done <= |s.merged| <= |morsels|
            && (s.done >= |morsels| ==>
                  s.queue == [] && Held(s.threads) == multiset{} && s.result == Total(Map(exec, morsels)))
  {
    InitInv(exec, morsels, localThreads);
    RunKeepsInv(exec, morsels, Init(morsels, localThreads), steps);
    hide IsRun, Exec, Locals, Held, Total, Map;
    var s := Exec(exec, Init(morsels, localThreads), steps);
    assert |multiset(morsels)| == |multiset(s.queue) + Held(s.threads) + multiset(s.merged)|;
    if s.done >= |morsels| {
      assert |multiset(s.queue)| == 0 && |Held(s.threads)| == 0;
      AllMerged(exec, morsels, s.merged);
    }
  }

  lemma AllMerged(exec: nat -> Partial, morsels: seq<nat>, merged: seq<nat>)
    ensures multiset(merged) == multiset(morsels) ==> Total(Map(exec, merged)) == Total(Map(exec, morsels))
  {
    hide Map, MergePartial, Sum;
    PartialLaws();
    if multiset(merged) == multiset(morsels) {
      MapPermutes(exec, merged, morsels);
      SumPermutes(MergePartial, NONE, Map(exec, merged), Map(exec, morsels));
    }
  }
}
