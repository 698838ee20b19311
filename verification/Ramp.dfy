/** The task counter. */
module Ramp {
  /* Threads that start at once and workers that join late take tasks from one atomic counter. */

  import opened Wrappers
  import opened Permutations

  /** The tasks a thread has fed into its partial result, in order, and the one it holds. */
  datatype Worker = Worker(done: seq<nat>, current: Option<nat>, stopped: bool)

  datatype State = State(next: nat, workers: seq<Worker>)

  datatype Step = Join | Take(w: nat) | Finish(w: nat)

  const FRESH: Worker := Worker([], None, false)

  predicate Enabled(s: State, step: Step) {
    match step
    case Join => true
    case Take(w) => w < |s.workers| && s.workers[w].current.None? && !s.workers[w].stopped
    case Finish(w) => w < |s.workers| && s.workers[w].current.Some?
  }

  /** One step over `n` tasks; `Take` is the `fetch_add` and its test against the number of tasks. */
  function Next(n: nat, s: State, step: Step): State
    requires Enabled(s, step)
  {
    match step
    case Join => s.(workers := s.workers + [FRESH])
    case Take(w) =>
      var worker := s.workers[w];
      State(s.next + 1, s.workers[w := if s.next < n then worker.(current := Some(s.next)) else worker.(stopped := true)])
    case Finish(w) =>
      var worker := s.workers[w];
      s.(workers := s.workers[w := worker.(done := worker.done + [worker.current.value], current := None)])
  }

  ghost predicate IsRun(n: nat, s: State, steps: seq<Step>)
    decreases |steps|
  {
    steps == [] || (Enabled(s, steps[0]) && IsRun(n, Next(n, s, steps[0]), steps[1..]))
  }

  ghost function Exec(n: nat, s: State, steps: seq<Step>): State
    requires IsRun(n, s, steps)
    decreases |steps|
  {
    if steps == [] then s else Exec(n, Next(n, s, steps[0]), steps[1..])
  }

  const INIT: State := State(0, [])

  function Held(w: Worker): seq<nat> {
    w.done + if w.current.Some? then [w.current.value] else []
  }

  function AllHeld(workers: seq<Worker>): seq<nat> {
    Flatten(Map(Held, workers))
  }

  function Dones(workers: seq<Worker>): seq<seq<nat>> {
    Map((w: Worker) => w.done, workers)
  }

  function HandedOut(n: nat, next: nat): nat {
    if next < n then next else n
  }

  /** Every task handed out is held by exactly one thread, once. */
  ghost predicate HeldOnce(n: nat, s: State) {
    multiset(AllHeld(s.workers)) == multiset(Range(HandedOut(n, s.next)))
  }

  /** A thread stops only when all tasks were handed out. */
  ghost predicate StopsLast(n: nat, s: State) {
    forall w :: 0 <= w < |s.workers| && s.workers[w].stopped ==> s.workers[w].current.None? && s.next > n
  }

  ghost predicate Inv(n: nat, s: State) {
    HeldOnce(n, s) && StopsLast(n, s)
  }

  /** A thread that comes to hold more adds just that to what all threads hold. */
  lemma HeldUpdate(workers: seq<Worker>, i: nat, worker: Worker, more: seq<nat>)
    requires i < |workers| && Held(worker) == Held(workers[i]) + more
    ensures multiset(AllHeld(workers[i := worker])) == multiset(AllHeld(workers)) + multiset(more)
  {
    hide Flatten, Map, Held;
    var a, b := workers[..i], workers[i + 1..];
    assert workers == a + [workers[i]] + b && workers[i := worker] == a + [worker] + b;
    HeldInsert(a, workers[i], b);
    HeldInsert(a, worker, b);
  }

  lemma HeldInsert(a: seq<Worker>, x: Worker, b: seq<Worker>)
    ensures multiset(AllHeld(a + [x] + b)) == multiset(AllHeld(a + b)) + multiset(Held(x))
  {
    hide Flatten, Held;
    MapConcat(Held, a + [x], b);
    MapConcat(Held, a, [x]);
    MapConcat(Held, a, b);
    MapOne(x);
    FlattenInsert(Map(Held, a), Held(x), Map(Held, b));
  }

  lemma MapOne(x: Worker)
    ensures Map(Held, [x]) == [Held(x)]
  {
    assert [x][..0] == [];
  }

  lemma JoinKeepsHeld(n: nat, s: State)
    requires HeldOnce(n, s)
    ensures HeldOnce(n, Next(n, s, Join))
  {
    hide AllHeld;
    HeldInsert(s.workers, FRESH, []);
    assert s.workers + [FRESH] + [] == s.workers + [FRESH] && s.workers + [] == s.workers;
  }

  lemma TakeKeepsHeld(n: nat, s: State, w: nat)
    requires HeldOnce(n, s) && Enabled(s, Take(w))
    ensures HeldOnce(n, Next(n, s, Take(w)))
  {
    hide AllHeld;
    var worker := Next(n, s, Take(w)).workers[w];
    var more := if s.next < n then [s.next] else [];
    assert Held(worker) == Held(s.workers[w]) + more;
    HeldUpdate(s.workers, w, worker, more);
    assert Range(HandedOut(n, s.next + 1)) == Range(HandedOut(n, s.next)) + more;
  }

  lemma FinishKeepsHeld(n: nat, s: State, w: nat)
    requires HeldOnce(n, s) && Enabled(s, Finish(w))
    ensures HeldOnce(n, Next(n, s, Finish(w)))
  {
    hide AllHeld;
    var worker := Next(n, s, Finish(w)).workers[w];
    assert Held(worker) == Held(s.workers[w]) + [];
    HeldUpdate(s.workers, w, worker, []);
  }

  lemma StepKeepsInv(n: nat, s: State, step: Step)
    requires Inv(n, s) && Enabled(s, step)
    ensures Inv(n, Next(n, s, step))
  {
    hide HeldOnce;
    match step {
      case Join => JoinKeepsHeld(n, s);
      case Take(w) => TakeKeepsHeld(n, s, w);
      case Finish(w) => FinishKeepsHeld(n, s, w);
    }
  }

  lemma {:induction false} RunKeepsInv(n: nat, s: State, steps: seq<Step>)
    requires Inv(n, s) && IsRun(n, s, steps)
    ensures Inv(n, Exec(n, s, steps))
    decreases |steps|
  {
    hide Inv, Next, Enabled;
    if steps != [] {
      StepKeepsInv(n, s, steps[0]);
      RunKeepsInv(n, Next(n, s, steps[0]), steps[1..]);
    }
  }

  lemma {:induction false} HeldIsDone(workers: seq<Worker>)
    requires forall w :: 0 <= w < |workers| ==> workers[w].current.None?
    ensures AllHeld(workers) == Flatten(Dones(workers))
  {
    if workers != [] {
      HeldIsDone(workers[..|workers| - 1]);
    }
  }

  /** The scope is over when every thread it spawned has stopped. */
  ghost predicate Over(s: State) {
    forall w :: 0 <= w < |s.workers| ==> s.workers[w].stopped
  }

  /** `runs` hands every one of `n` tasks to exactly one thread, once. */
  ghost predicate Schedule(n: nat, runs: seq<seq<nat>>) {
    multiset(Flatten(runs)) == multiset(Range(n))
  }

  /** Whatever the interleaving and however late workers join, every task runs exactly once: with at least one
      thread the runs of the threads are a schedule. Without any, no task runs. */
  lemma EveryTaskOnce(n: nat, steps: seq<Step>)
    requires IsRun(n, INIT, steps) && Over(Exec(n, INIT, steps))
    ensures var workers := Exec(n, INIT, steps).workers; Schedule(n, Dones(workers)) <==> n == 0 || workers != []
  {
    assert Inv(n, INIT);
    RunKeepsInv(n, INIT, steps);
    hide IsRun, Exec;
    var s := Exec(n, INIT, steps);
    HeldIsDone(s.workers);
    if s.workers != [] {
      assert s.workers[0].stopped;
    } else if n > 0 {
      assert Range(n)[0] == 0 && 0 in Range(n);
      assert 0 in multiset(Range(n));
    }
  }

  // ---- every run can end ----

  /** What a thread has still to do, apart from taking tasks: finish the one it holds, and stop. */
  function Duty(w: Worker): nat {
    (if w.current.Some? then 1 else 0) + if w.stopped then 0 else 1
  }

  function Duties(workers: seq<Worker>): nat {
    if workers == [] then 0 else Duties(workers[..|workers| - 1]) + Duty(workers[|workers| - 1])
  }

  lemma {:induction false} DutiesUpdate(workers: seq<Worker>, i: nat, worker: Worker)
    requires i < |workers|
    ensures Duties(workers[i := worker]) + Duty(workers[i]) == Duties(workers) + Duty(worker)
    decreases |workers|
  {
    hide Duty;
    var n := |workers| - 1;
    if i < n {
      DutiesUpdate(workers[..n], i, worker);
      assert workers[i := worker][..n] == workers[..n][i := worker];
    } else {
      assert workers[i := worker][..n] == workers[..n];
    }
  }

  /** The threads there are can always finish what they hold, take what is left and stop. */
  lemma {:induction false} CanEnd(n: nat, s: State) returns (steps: seq<Step>)
    ensures IsRun(n, s, steps) && Over(Exec(n, s, steps)) && |Exec(n, s, steps).workers| == |s.workers|
    decreases 2 * (n - HandedOut(n, s.next)) + Duties(s.workers)
  {
    hide Duties;
    if w: nat :| w < |s.workers| && !s.workers[w].stopped {
      var step := if s.workers[w].current.Some? then Finish(w) else Take(w);
      var t := Next(n, s, step);
      DutiesUpdate(s.workers, w, t.workers[w]);
      var rest := CanEnd(n, t);
      steps := [step] + rest;
    } else {
      steps := [];
    }
  }
}
