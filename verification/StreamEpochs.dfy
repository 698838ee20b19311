/** What streaming epochs guarantee. */
module StreamEpochs {
  /* Exactly once without aborts, at least once with them, and offsets never ahead of processing. */

  import opened Wrappers
  import opened Permutations
  import opened Stream

  /** Exactly these records, each once; or at least these. */
  ghost predicate Got(exact: bool, recs: seq<Record>, upto: seq<Record>) {
    if exact then multiset(recs) == multiset(upto) else forall r :: r in upto ==> r in recs
  }

  ghost predicate Base(logs: seq<seq<Record>>, committed: seq<nat>) {
    && |committed| == |logs|
    && forall p :: 0 <= p < |logs| ==> committed[p] <= |logs[p]|
  }

  /** Of every partition the consumer was handed its log below the committed offset. */
  ghost predicate GotCommitted(exact: bool, logs: seq<seq<Record>>, committed: seq<nat>, delivered: seq<WorkUnit>)
    requires Base(logs, committed)
  {
    forall p :: 0 <= p < |logs| ==> Got(exact, RecordsFor(p, delivered), logs[p][..committed[p]])
  }

  /** The planned units are the records from the committed offset to `high`, for the partitions planned so far. */
  ghost predicate Planned(logs: seq<seq<Record>>, committed: seq<nat>, units: seq<WorkUnit>, high: seq<nat>)
    requires Base(logs, committed)
  {
    && |high| <= |logs|
    && (forall p :: 0 <= p < |high| ==> PlannedTo(p, logs[p], committed[p], units, high[p]))
    && (forall p :: |high| <= p ==> RecordsFor(p, units) == [])
    && forall u :: u in units ==> u.partition < |high| && committed[u.partition] < u.end <= high[u.partition]
  }

  ghost predicate PlannedTo(p: nat, log: seq<Record>, committed: nat, units: seq<WorkUnit>, high: nat) {
    && committed <= high <= |log|
    && RecordsFor(p, units) == log[committed..high]
    && (committed < high ==> exists u :: u in units && u.partition == p && u.end == high)
  }

  function HeldBy(w: Worker): seq<WorkUnit> {
    if w.Holding? then [w.u] else []
  }

  function Held(workers: seq<Worker>): multiset<WorkUnit> {
    if workers == [] then multiset{} else Held(workers[..|workers| - 1]) + multiset(HeldBy(workers[|workers| - 1]))
  }

  /** Every planned unit is queued, being processed, or processed. */
  ghost predicate Once(queue: seq<WorkUnit>, workers: seq<Worker>, processed: seq<WorkUnit>, planned: seq<WorkUnit>) {
    multiset(queue) + Held(workers) + multiset(processed) == multiset(planned)
  }

  /** Progress stays between committed and planned, and covers every processed unit a thread is not about to record. */
  ghost predicate Progress(committed: seq<nat>, progress: seq<nat>, high: seq<nat>, processed: seq<WorkUnit>, workers: seq<Worker>) {
    && |progress| == |high| == |committed|
    && (forall p :: 0 <= p < |high| ==> committed[p] <= progress[p] <= high[p])
    && (forall u :: u in processed ==> u.partition < |progress| && (u.end <= progress[u.partition] || Marking(u) in workers))
    && forall w :: 0 <= w < |workers| && workers[w].Marking? ==> workers[w].u in processed
  }

  ghost predicate Stops(queue: seq<WorkUnit>, workers: seq<Worker>, processed: seq<WorkUnit>, committed: seq<nat>, progress: seq<nat>) {
    && (Stopped in workers ==> queue == [])
    && (workers == [] ==> processed == [] && progress == committed)
  }

  ghost predicate RunningInv(exact: bool, s: State)
    requires Base(s.logs, s.committed) && s.epoch.Some? && s.epoch.value.Running?
  {
    var e := s.epoch.value;
    && |e.high| == |s.logs| && Planned(s.logs, s.committed, e.planned, e.high)
    && GotCommitted(exact, s.logs, s.committed, e.before) && s.delivered == e.before + e.processed
    && Once(e.queue, e.workers, e.processed, e.planned)
    && Progress(s.committed, e.progress, e.high, e.processed, e.workers)
    && Stops(e.queue, e.workers, e.processed, s.committed, e.progress)
    && e.planned != [] && e.sized.Possible() && |e.workers| == e.sized.Threads()
  }

  /** What is being committed has been handed over. */
  ghost predicate Handed(exact: bool, logs: seq<seq<Record>>, committed: seq<nat>, delivered: seq<WorkUnit>, next: nat, progress: seq<nat>)
    requires Base(logs, committed)
  {
    && |progress| == |logs|
    && forall p :: 0 <= p < |logs| ==>
         && committed[p] <= progress[p] <= |logs[p]| && (p < next ==> committed[p] == progress[p])
         && Got(exact, RecordsFor(p, delivered), logs[p][..progress[p]])
  }

  ghost predicate Inv(exact: bool, s: State) {
    && Base(s.logs, s.committed)
    && match s.epoch
       case None => GotCommitted(exact, s.logs, s.committed, s.delivered)
       case Some(Sizing(_, _)) => GotCommitted(exact, s.logs, s.committed, s.delivered)
       case Some(Planning(units, high, sized)) =>
         && sized.Possible() && GotCommitted(exact, s.logs, s.committed, s.delivered)
         && Planned(s.logs, s.committed, units, high)
       case Some(Running(_, _, _, _, _, _, _, _)) => RunningInv(exact, s)
       case Some(Committing(next, progress)) => Handed(exact, s.logs, s.committed, s.delivered, next, progress)
  }

  // ---- records ----

  lemma GotConcat(exact: bool, a: seq<Record>, b: seq<Record>, x: seq<Record>, y: seq<Record>)
    requires Got(exact, a, x) && multiset(b) == multiset(y)
    ensures Got(exact, a + b, x + y)
  {
    forall r | r in y ensures r in b {
      assert r in multiset(y);
    }
  }

  lemma GotMore(a: seq<Record>, b: seq<Record>, x: seq<Record>)
    requires Got(false, a, x)
    ensures Got(false, a + b, x)
  {
  }

  lemma GotPrefix(exact: bool, recs: seq<Record>, log: seq<Record>, n: nat, m: nat)
    requires n <= m <= |log| && Got(exact, recs, log[..m])
    ensures Got(false, recs, log[..n])
  {
    assert log[..m] == log[..n] + log[n..m];
    forall r | r in log[..n] ensures r in recs {
      assert r in log[..m];
      assert exact ==> r in multiset(log[..m]);
    }
  }

  // ---- push ----

  lemma PlannedGrows(logs: seq<seq<Record>>, p: nat, r: Record, committed: seq<nat>, units: seq<WorkUnit>, high: seq<nat>)
    requires Base(logs, committed) && p < |logs| && Planned(logs, committed, units, high)
    ensures Base(logs[p := logs[p] + [r]], committed)
    ensures Planned(logs[p := logs[p] + [r]], committed, units, high)
  {
    hide RecordsFor;
    var after := logs[p := logs[p] + [r]];
    forall q | 0 <= q < |high| ensures PlannedTo(q, after[q], committed[q], units, high[q]) {
      assert PlannedTo(q, logs[q], committed[q], units, high[q]);
      assert after[q][committed[q]..high[q]] == logs[q][committed[q]..high[q]];
    }
  }

  lemma GotGrows(exact: bool, logs: seq<seq<Record>>, p: nat, r: Record, committed: seq<nat>, delivered: seq<WorkUnit>)
    requires Base(logs, committed) && p < |logs| && GotCommitted(exact, logs, committed, delivered)
    ensures Base(logs[p := logs[p] + [r]], committed)
    ensures GotCommitted(exact, logs[p := logs[p] + [r]], committed, delivered)
  {
    hide Got, RecordsFor;
    var after := logs[p := logs[p] + [r]];
    forall q | 0 <= q < |logs| ensures after[q][..committed[q]] == logs[q][..committed[q]] {
    }
  }

  lemma HandedGrows(exact: bool, logs: seq<seq<Record>>, p: nat, r: Record, committed: seq<nat>, delivered: seq<WorkUnit>, next: nat, progress: seq<nat>)
    requires Base(logs, committed) && p < |logs| && Handed(exact, logs, committed, delivered, next, progress)
    ensures Base(logs[p := logs[p] + [r]], committed)
    ensures Handed(exact, logs[p := logs[p] + [r]], committed, delivered, next, progress)
  {
    hide Got, RecordsFor;
    var after := logs[p := logs[p] + [r]];
    forall q | 0 <= q < |logs| ensures after[q][..progress[q]] == logs[q][..progress[q]] {
    }
  }

  lemma PushKeeps(exact: bool, s: State, p: nat, key: nat, value: nat)
    requires Inv(exact, s) && p < |s.logs|
    ensures Inv(exact, Next(s, Push(p, key, value)))
  {
    hide GotCommitted, Planned, Once, Progress, Stops, Handed, Got;
    var r := Record(|s.logs[p]|, key, value);
    match s.epoch {
      case None => GotGrows(exact, s.logs, p, r, s.committed, s.delivered);
      case Some(Sizing(_, _)) => GotGrows(exact, s.logs, p, r, s.committed, s.delivered);
      case Some(Planning(units, high, _)) =>
        GotGrows(exact, s.logs, p, r, s.committed, s.delivered);
        PlannedGrows(s.logs, p, r, s.committed, units, high);
      case Some(Running(_, _, _, high, planned, _, before, _)) =>
        GotGrows(exact, s.logs, p, r, s.committed, before);
        PlannedGrows(s.logs, p, r, s.committed, planned, high);
      case Some(Committing(next, progress)) => HandedGrows(exact, s.logs, p, r, s.committed, s.delivered, next, progress);
    }
  }

  // ---- planning ----

  lemma NothingPlanned(logs: seq<seq<Record>>, committed: seq<nat>)
    requires Base(logs, committed)
    ensures Planned(logs, committed, [], [])
  {
    forall p ensures RecordsFor(p, []) == [] {
      RecordsForOne(p, WorkUnit(0, 0, 0, []));
    }
  }

  lemma OnePlanned(logs: seq<seq<Record>>, committed: seq<nat>, units: seq<WorkUnit>, high: seq<nat>, max: nat)
    requires Base(logs, committed) && Planned(logs, committed, units, high) && |high| < |logs| && max >= 1
    ensures var p := |high|;
            Planned(logs, committed, units + Units(p, logs[p], committed[p], max), high + [|logs[p]|])
  {
    hide RecordsFor, Units;
    var p := |high|;
    var more := Units(p, logs[p], committed[p], max);
    UnitsHold(p, logs[p], committed[p], max);
    var after := high + [|logs[p]|];
    forall q ensures RecordsFor(q, units + more) == RecordsFor(q, units) + RecordsFor(q, more) {
      RecordsForConcat(q, units, more);
    }
    forall q | 0 <= q < |after| ensures PlannedTo(q, logs[q], committed[q], units + more, after[q]) {
      if q < |high| {
        assert PlannedTo(q, logs[q], committed[q], units, high[q]);
      } else {
        assert logs[p][committed[p]..|logs[p]|] == logs[p][committed[p]..];
      }
    }
  }

  lemma PlanKeeps(exact: bool, s: State)
    requires Inv(exact, s) && Enabled(s, Plan)
    ensures Inv(exact, Next(s, Plan))
  {
    hide GotCommitted, Planned, Units;
    var e := s.epoch.value;
    OnePlanned(s.logs, s.committed, e.units, e.high, e.sized.PerUnit());
  }

  lemma {:induction false} NothingHeld(n: nat)
    ensures Held(AllReady(n)) == multiset{}
  {
    if n > 0 {
      NothingHeld(n - 1);
      assert AllReady(n)[..n - 1] == AllReady(n - 1);
    }
  }

  lemma StartKeeps(exact: bool, s: State)
    requires Inv(exact, s) && Enabled(s, Start)
    ensures Inv(exact, Next(s, Start))
  {
    hide GotCommitted, RecordsFor, Held;
    NothingHeld(s.epoch.value.sized.Threads());
    var e, e' := s.epoch.value, Next(s, Start).epoch.value;
    assert s.delivered + [] == s.delivered;
    forall p | 0 <= p < |e.high| ensures s.committed[p] <= e.high[p] {
      assert PlannedTo(p, s.logs[p], s.committed[p], e.units, e.high[p]);
    }
    assert Planned(s.logs, s.committed, e'.planned, e'.high);
  }

  // ---- stealing and processing ----

  lemma {:induction false} HeldSplit(workers: seq<Worker>, w: nat, x: Worker) returns (rest: multiset<WorkUnit>)
    requires w < |workers|
    ensures Held(workers) == rest + multiset(HeldBy(workers[w])) && Held(workers[w := x]) == rest + multiset(HeldBy(x))
    decreases |workers|
  {
    hide HeldBy;
    var n := |workers| - 1;
    if w == n {
      rest := Held(workers[..n]);
      assert workers[w := x][..n] == workers[..n];
    } else {
      rest := HeldSplit(workers[..n], w, x);
      assert workers[w := x][..n] == workers[..n][w := x];
      rest := rest + multiset(HeldBy(workers[n]));
    }
  }

  lemma StealOnce(queue: seq<WorkUnit>, workers: seq<Worker>, processed: seq<WorkUnit>, planned: seq<WorkUnit>, w: nat)
    requires Once(queue, workers, processed, planned) && w < |workers| && workers[w].Ready? && queue != []
    ensures Once(queue[..|queue| - 1], workers[w := Holding(queue[|queue| - 1])], processed, planned)
  {
    hide Held;
    var u := queue[|queue| - 1];
    assert queue == queue[..|queue| - 1] + [u];
    var rest := HeldSplit(workers, w, Holding(u));
  }

  lemma DeliverOnce(queue: seq<WorkUnit>, workers: seq<Worker>, processed: seq<WorkUnit>, planned: seq<WorkUnit>, w: nat)
    requires Once(queue, workers, processed, planned) && w < |workers| && workers[w].Holding?
    ensures Once(queue, workers[w := Marking(workers[w].u)], processed + [workers[w].u], planned)
    ensures workers[w].u in planned
  {
    hide Held;
    var rest := HeldSplit(workers, w, Marking(workers[w].u));
    assert workers[w].u in multiset(planned);
  }

  /** Steps of a thread that hold no unit before or after move none. */
  lemma QuietOnce(queue: seq<WorkUnit>, workers: seq<Worker>, processed: seq<WorkUnit>, planned: seq<WorkUnit>, w: nat, x: Worker)
    requires Once(queue, workers, processed, planned) && w < |workers| && !workers[w].Holding? && !x.Holding?
    ensures Once(queue, workers[w := x], processed, planned)
  {
    hide Held;
    var rest := HeldSplit(workers, w, x);
  }

  lemma StillMarking(workers: seq<Worker>, w: nat, x: Worker, u: WorkUnit)
    requires w < |workers| && Marking(u) in workers && workers[w] != Marking(u)
    ensures Marking(u) in workers[w := x]
  {
    var i :| 0 <= i < |workers| && workers[i] == Marking(u);
    assert workers[w := x][i] == Marking(u);
  }

  lemma StealKeeps(exact: bool, s: State, w: nat)
    requires Inv(exact, s) && Enabled(s, Steal(w))
    ensures Inv(exact, Next(s, Steal(w)))
  {
    hide GotCommitted, Planned, Once;
    var e, e' := s.epoch.value, Next(s, Steal(w)).epoch.value;
    StealOnce(e.queue, e.workers, e.processed, e.planned, w);
    forall u | Marking(u) in e.workers ensures Marking(u) in e'.workers {
      StillMarking(e.workers, w, e'.workers[w], u);
    }
    assert Stopped !in e.workers;
  }

  lemma DeliverKeeps(exact: bool, s: State, w: nat)
    requires Inv(exact, s) && Enabled(s, Deliver(w))
    ensures Inv(exact, Next(s, Deliver(w)))
  {
    hide GotCommitted, Once, PlannedTo, RecordsFor;
    var e, s' := s.epoch.value, Next(s, Deliver(w));
    var e' := s'.epoch.value;
    var u := e.workers[w].u;
    DeliverOnce(e.queue, e.workers, e.processed, e.planned, w);
    forall v | Marking(v) in e.workers ensures Marking(v) in e'.workers {
      StillMarking(e.workers, w, e'.workers[w], v);
    }
    assert e'.workers[w] == Marking(u);
    assert s'.delivered == e.before + e'.processed;
    assert Stopped in e'.workers ==> Stopped in e.workers;
  }

  lemma MarkKeeps(exact: bool, s: State, w: nat)
    requires Inv(exact, s) && Enabled(s, Mark(w))
    ensures Inv(exact, Next(s, Mark(w)))
  {
    hide GotCommitted, Planned, Once;
    var e, e' := s.epoch.value, Next(s, Mark(w)).epoch.value;
    var u := e.workers[w].u;
    QuietOnce(e.queue, e.workers, e.processed, e.planned, w, Ready);
    MarkProgress(s.committed, e.progress, e.high, e.processed, e.workers, w, e.planned, e.queue, s.logs);
    assert Stopped in e'.workers ==> Stopped in e.workers;
  }

  lemma MarkProgress(committed: seq<nat>, progress: seq<nat>, high: seq<nat>, processed: seq<WorkUnit>, workers: seq<Worker>, w: nat,
                     planned: seq<WorkUnit>, queue: seq<WorkUnit>, logs: seq<seq<Record>>)
    requires Base(logs, committed) && Planned(logs, committed, planned, high) && Once(queue, workers, processed, planned)
    requires Progress(committed, progress, high, processed, workers) && w < |workers| && workers[w].Marking?
    ensures workers[w].u.partition < |progress|
    ensures var u := workers[w].u;
            Progress(committed, if u.end > progress[u.partition] then progress[u.partition := u.end] else progress, high, processed, workers[w := Ready])
  {
    hide Held, RecordsFor, PlannedTo;
    var u := workers[w].u;
    assert u in processed && u in multiset(processed);
    assert u in multiset(planned);
    var after := if u.end > progress[u.partition] then progress[u.partition := u.end] else progress;
    forall v | v in processed ensures v.partition < |after| && (v.end <= after[v.partition] || Marking(v) in workers[w := Ready]) {
      if v != u && Marking(v) in workers {
        StillMarking(workers, w, Ready, v);
      }
    }
  }

  lemma StopKeeps(exact: bool, s: State, w: nat)
    requires Inv(exact, s) && Enabled(s, Stop(w))
    ensures Inv(exact, Next(s, Stop(w)))
  {
    hide GotCommitted, Planned, Once;
    var e, e' := s.epoch.value, Next(s, Stop(w)).epoch.value;
    QuietOnce(e.queue, e.workers, e.processed, e.planned, w, Stopped);
    forall u | Marking(u) in e.workers ensures Marking(u) in e'.workers {
      StillMarking(e.workers, w, Stopped, u);
    }
  }

  // ---- committing ----

  lemma {:induction false} NoneHeld(workers: seq<Worker>)
    requires forall w :: 0 <= w < |workers| ==> workers[w] == Stopped
    ensures Held(workers) == multiset{}
  {
    if workers != [] {
      NoneHeld(workers[..|workers| - 1]);
    }
  }

  /** When every thread has stopped, all planned units were processed and progress has reached what was planned;
      without any thread nothing was. */
  lemma AllProcessed(logs: seq<seq<Record>>, committed: seq<nat>, e: Epoch, p: nat)
    requires Base(logs, committed) && e.Running? && |e.high| == |logs| && Planned(logs, committed, e.planned, e.high)
    requires Once(e.queue, e.workers, e.processed, e.planned) && Progress(committed, e.progress, e.high, e.processed, e.workers)
    requires Stops(e.queue, e.workers, e.processed, committed, e.progress)
    requires (forall w :: 0 <= w < |e.workers| ==> e.workers[w] == Stopped) && p < |logs|
    ensures multiset(RecordsFor(p, e.processed)) == multiset(logs[p][committed[p]..e.progress[p]])
    ensures e.workers != [] ==> e.progress[p] == e.high[p]
  {
    hide RecordsFor;
    NoneHeld(e.workers);
    assert committed[p] <= e.progress[p] <= e.high[p];
    if e.workers == [] {
      RecordsForOne(p, WorkUnit(0, 0, 0, []));
      assert logs[p][committed[p]..e.progress[p]] == [];
    } else {
      assert e.workers[0] == Stopped;
      RecordsForPermutes(p, e.processed, e.planned);
      assert PlannedTo(p, logs[p], committed[p], e.planned, e.high[p]);
      if committed[p] < e.high[p] {
        var u :| u in e.planned && u.partition == p && u.end == e.high[p];
        assert u in multiset(e.processed);
      }
    }
  }

  lemma FinishKeeps(exact: bool, s: State)
    requires Inv(exact, s) && Enabled(s, Finish)
    ensures Inv(exact, Next(s, Finish))
  {
    hide Got, Once, Stops, RecordsFor;
    var e := s.epoch.value;
    forall p | 0 <= p < |s.logs|
      ensures s.committed[p] <= e.progress[p] <= |s.logs[p]|
      ensures Got(exact, RecordsFor(p, s.delivered), s.logs[p][..e.progress[p]])
    {
      AllProcessed(s.logs, s.committed, e, p);
      assert PlannedTo(p, s.logs[p], s.committed[p], e.planned, e.high[p]);
      RecordsForConcat(p, e.before, e.processed);
      assert s.logs[p][..e.progress[p]] == s.logs[p][..s.committed[p]] + s.logs[p][s.committed[p]..e.progress[p]];
      GotConcat(exact, RecordsFor(p, e.before), RecordsFor(p, e.processed), s.logs[p][..s.committed[p]],
                s.logs[p][s.committed[p]..e.progress[p]]);
    }
  }

  lemma CommitKeeps(exact: bool, s: State)
    requires Inv(exact, s) && Enabled(s, Commit)
    ensures Inv(exact, Next(s, Commit))
  {
    hide Got, RecordsFor;
  }

  lemma EndKeeps(exact: bool, s: State, step: Step)
    requires Inv(exact, s) && Enabled(s, step) && (step.End? || step.Skip? || step.Begin? || step.Read? || step.Size?)
    ensures Inv(exact, Next(s, step))
  {
    hide Got, RecordsFor;
    if step.Size? {
      NothingPlanned(s.logs, s.committed);
    }
  }

  /** Whatever is lost in an abort, everything below the committed offsets was handed over. */
  lemma NeverAhead(exact: bool, s: State)
    requires Inv(exact, s)
    ensures Base(s.logs, s.committed) && GotCommitted(false, s.logs, s.committed, s.delivered)
  {
    hide RecordsFor;
    forall p | 0 <= p < |s.logs| ensures Got(false, RecordsFor(p, s.delivered), s.logs[p][..s.committed[p]]) {
      match s.epoch {
        case None => GotPrefix(exact, RecordsFor(p, s.delivered), s.logs[p], s.committed[p], s.committed[p]);
        case Some(Sizing(_, _)) => GotPrefix(exact, RecordsFor(p, s.delivered), s.logs[p], s.committed[p], s.committed[p]);
        case Some(Planning(_, _, _)) => GotPrefix(exact, RecordsFor(p, s.delivered), s.logs[p], s.committed[p], s.committed[p]);
        case Some(Running(_, _, _, _, _, processed, before, _)) =>
          GotPrefix(exact, RecordsFor(p, before), s.logs[p], s.committed[p], s.committed[p]);
          RecordsForConcat(p, before, processed);
          GotMore(RecordsFor(p, before), RecordsFor(p, processed), s.logs[p][..s.committed[p]]);
        case Some(Committing(_, progress)) =>
          GotPrefix(exact, RecordsFor(p, s.delivered), s.logs[p], s.committed[p], progress[p]);
      }
    }
  }

  lemma StepKeepsInv(exact: bool, s: State, step: Step)
    requires Inv(exact, s) && |s.committed| == |s.logs| && Enabled(s, step) && (exact ==> !step.Abort?)
    ensures Inv(exact, Next(s, step)) && |Next(s, step).committed| == |Next(s, step).logs|
  {
    StepSize(s, step);
    hide Inv, Enabled, Next;
    match step {
      case Push(p, key, value) => PushIsEnabled(s, p, key, value); PushKeeps(exact, s, p, key, value);
      case Plan => PlanKeeps(exact, s);
      case Start => StartKeeps(exact, s);
      case Steal(w) => StealKeeps(exact, s, w);
      case Deliver(w) => DeliverKeeps(exact, s, w);
      case Mark(w) => MarkKeeps(exact, s, w);
      case Stop(w) => StopKeeps(exact, s, w);
      case Finish => FinishKeeps(exact, s);
      case Commit => CommitKeeps(exact, s);
      case Abort => NeverAhead(exact, s); AbortKeeps(s);
      case _ => EndKeeps(exact, s, step);
    }
  }

  lemma StepSize(s: State, step: Step)
    requires |s.committed| == |s.logs| && Enabled(s, step)
    ensures |Next(s, step).committed| == |Next(s, step).logs|
  {
  }

  lemma PushIsEnabled(s: State, p: nat, key: nat, value: nat)
    requires Enabled(s, Push(p, key, value))
    ensures p < |s.logs|
  {
  }

  lemma AbortKeeps(s: State)
    requires |s.committed| == |s.logs| && Enabled(s, Abort)
    requires Base(s.logs, s.committed) && GotCommitted(false, s.logs, s.committed, s.delivered)
    ensures Inv(false, Next(s, Abort))
  {
  }

  // ---- runs ----

  ghost predicate NoAbort(steps: seq<Step>) {
    forall i :: 0 <= i < |steps| ==> !steps[i].Abort?
  }

  lemma {:induction false} RunKeepsInv(exact: bool, s: State, steps: seq<Step>)
    requires Inv(exact, s) && |s.committed| == |s.logs| && IsRun(s, steps) && (exact ==> NoAbort(steps))
    ensures Inv(exact, Exec(s, steps))
    decreases |steps|
  {
    hide Inv, Next, Enabled;
    if steps != [] {
      StepKeepsInv(exact, s, steps[0]);
      RunKeepsInv(exact, Next(s, steps[0]), steps[1..]);
    }
  }

  lemma InitInv(exact: bool, partitions: nat)
    ensures Inv(exact, Init(partitions))
  {
    forall p | 0 <= p < partitions ensures RecordsFor(p, []) == [] {
      RecordsForOne(p, WorkUnit(0, 0, 0, []));
    }
  }

  /** Exactly once: between epochs of a run without aborts, the records a partition's consumer was handed are its log
      below the committed offset, each once, however pushes, epochs and steals interleaved. */
  lemma ExactlyOnce(partitions: nat, steps: seq<Step>, p: nat)
    requires IsRun(Init(partitions), steps) && NoAbort(steps)
    requires var s := Exec(Init(partitions), steps); s.epoch.None? && p < |s.logs|
    ensures var s := Exec(Init(partitions), steps);
            |s.committed| == |s.logs| && s.committed[p] <= |s.logs[p]|
            && multiset(RecordsFor(p, s.delivered)) == multiset(s.logs[p][..s.committed[p]])
  {
    hide IsRun, Exec, RecordsFor;
    InitInv(true, partitions);
    RunKeepsInv(true, Init(partitions), steps);
    assert Got(true, RecordsFor(p, Exec(Init(partitions), steps).delivered), Exec(Init(partitions), steps).logs[p][..Exec(Init(partitions), steps).committed[p]]);
  }

  /** At least once: even with aborts, and in the middle of an epoch, committed offsets are within the logs and no
      record below them was missed. */
  lemma AtLeastOnce(partitions: nat, steps: seq<Step>, p: nat)
    requires IsRun(Init(partitions), steps) && p < |Exec(Init(partitions), steps).logs|
    ensures var s := Exec(Init(partitions), steps);
            && |s.committed| == |s.logs| && s.committed[p] <= |s.logs[p]|
            && forall r :: r in s.logs[p][..s.committed[p]] ==> r in RecordsFor(p, s.delivered)
  {
    hide IsRun, Exec, RecordsFor, Inv;
    InitInv(false, partitions);
    RunKeepsInv(false, Init(partitions), steps);
    var s := Exec(Init(partitions), steps);
    NeverAhead(false, s);
    assert Got(false, RecordsFor(p, s.delivered), s.logs[p][..s.committed[p]]);
  }

  // ---- what an epoch commits ----

  /** What was planned lies beyond the committed offsets. */
  lemma PlannedBeyond(logs: seq<seq<Record>>, committed: seq<nat>, units: seq<WorkUnit>, high: seq<nat>)
    requires Base(logs, committed) && |high| == |logs| && Planned(logs, committed, units, high) && units != []
    ensures high != committed
  {
    hide RecordsFor, PlannedTo;
    var u := units[0];
    assert u in units && committed[u.partition] < high[u.partition];
  }

  /** An epoch with a thread commits everything it planned, one without commits nothing, which is less. */
  lemma FinishCommits(exact: bool, s: State)
    requires Inv(exact, s) && Enabled(s, Finish)
    ensures var e := s.epoch.value;
            && |e.high| == |s.logs| && e.high != s.committed
            && Next(s, Finish).epoch == Some(Committing(0, if e.workers != [] then e.high else s.committed))
  {
    hide Got, Once, RecordsFor, Planned;
    var e := s.epoch.value;
    PlannedBeyond(s.logs, s.committed, e.planned, e.high);
    if e.workers != [] {
      forall q | 0 <= q < |s.logs| ensures e.progress[q] == e.high[q] {
        AllProcessed(s.logs, s.committed, e, q);
      }
      assert e.progress == e.high;
    }
  }

  /** A finishing epoch goes on to commit everything it planned exactly if it had a local thread, or there was lag when
      it was read and workers are allowed; otherwise it commits nothing, and ends well. */
  lemma EpochDrains(partitions: nat, steps: seq<Step>)
    requires IsRun(Init(partitions), steps) && Enabled(Exec(Init(partitions), steps), Finish)
    ensures var s := Exec(Init(partitions), steps);
            var e := s.epoch.value;
            && |s.committed| == |s.logs| == |e.high| && e.high != s.committed
            && (Next(s, Finish).epoch == Some(Committing(0, e.high))
                <==> e.sized.cfg.local > 0 || (e.sized.lag > 0 && e.sized.cfg.maxWorkers > 0))
            && (Next(s, Finish).epoch == Some(Committing(0, e.high)) || Next(s, Finish).epoch == Some(Committing(0, s.committed)))
  {
    hide IsRun, Exec, RecordsFor;
    InitInv(false, partitions);
    RunKeepsInv(false, Init(partitions), steps);
    var s := Exec(Init(partitions), steps);
    FinishCommits(false, s);
    ThreadsIff(s.epoch.value.sized);
  }

  /** When the commits are over, the committed offsets are those the epoch went on to commit. */
  lemma EndCommits(partitions: nat, steps: seq<Step>)
    requires IsRun(Init(partitions), steps) && Enabled(Exec(Init(partitions), steps), End)
    ensures var s := Exec(Init(partitions), steps); s.committed == s.epoch.value.progress
  {
    hide IsRun, Exec, RecordsFor, Got;
    InitInv(false, partitions);
    RunKeepsInv(false, Init(partitions), steps);
  }

  // ---- an epoch that commits nothing ----

  ghost predicate Reaches(s: State, t: State)
    requires |s.committed| == |s.logs|
  {
    exists steps :: IsRun(s, steps) && Exec(s, steps) == t
  }

  lemma {:induction false} RunThenStep(s: State, steps: seq<Step>, step: Step)
    requires |s.committed| == |s.logs| && IsRun(s, steps) && Enabled(Exec(s, steps), step)
    requires |Exec(s, steps).committed| == |Exec(s, steps).logs|
    ensures IsRun(s, steps + [step]) && Exec(s, steps + [step]) == Next(Exec(s, steps), step)
    decreases |steps|
  {
    hide Enabled, Next;
    if steps == [] {
      assert steps + [step] == [step];
      assert [step][1..] == [];
    } else {
      assert (steps + [step])[1..] == steps[1..] + [step];
      StepSize(s, steps[0]);
      RunThenStep(Next(s, steps[0]), steps[1..], step);
    }
  }

  lemma ReachesNext(s: State, t: State, step: Step)
    requires |s.committed| == |s.logs| && Reaches(s, t) && |t.committed| == |t.logs| && Enabled(t, step)
    ensures Reaches(s, Next(t, step)) && |Next(t, step).committed| == |Next(t, step).logs|
  {
    hide Enabled, Next, IsRun, Exec;
    var steps :| IsRun(s, steps) && Exec(s, steps) == t;
    StepSize(t, step);
    RunThenStep(s, steps, step);
    assert IsRun(s, steps + [step]);
  }

  /** Nothing is committed, and the epoch is the given one. */
  ghost predicate Fresh(s: State, logs: seq<seq<Record>>) {
    s.logs == logs && s.committed == seq(|logs|, _ => 0) && s.delivered == []
  }

  lemma {:induction false} ReadsAll(z: State, s: State, cfg: Config) returns (t: State)
    requires |z.committed| == |z.logs| && Reaches(z, s) && Fresh(s, seq(|s.logs|, _ => []))
    requires s.epoch.Some? && s.epoch.value.Sizing? && s.epoch.value.read <= |s.logs| && s.epoch.value.sized == Sized(0, cfg)
    ensures Reaches(z, t) && t == s.(epoch := Some(Sizing(|s.logs|, Sized(0, cfg))))
    decreases |s.logs| - s.epoch.value.read
  {
    hide Reaches;
    if s.epoch.value.read == |s.logs| {
      t := s;
    } else {
      ReachesNext(z, s, Read);
      t := ReadsAll(z, Next(s, Read), cfg);
    }
  }

  lemma {:induction false} PlansAll(z: State, s: State) returns (t: State)
    requires |z.committed| == |z.logs| && Reaches(z, s) && |s.committed| == |s.logs|
    requires s.epoch.Some? && s.epoch.value.Planning? && |s.epoch.value.high| <= |s.logs|
    ensures Reaches(z, t) && t.logs == s.logs && t.committed == s.committed
    ensures t.epoch.Some? && t.epoch.value.Planning? && |t.epoch.value.high| == |t.logs|
    ensures t.epoch.value.sized == s.epoch.value.sized && s.epoch.value.units <= t.epoch.value.units
    ensures |s.epoch.value.high| == 0 < |s.logs| && s.committed[0] < |s.logs[0]| ==> t.epoch.value.units != []
    decreases |s.logs| - |s.epoch.value.high|
  {
    hide Reaches;
    if |s.epoch.value.high| == |s.logs| {
      t := s;
    } else {
      ReachesNext(z, s, Plan);
      t := PlansAll(z, Next(s, Plan));
    }
  }

  /** The lag is read and found to be none, a record arrives, and it is planned: with no local thread, whatever the
      sizer is given, the epoch finishes without handing it over or committing it. */
  lemma EpochStalls(partitions: nat, cfg: Config)
    requires partitions > 0 && cfg.local == 0
    ensures exists steps :: IsRun(Init(partitions), steps) && Stalled(Exec(Init(partitions), steps), cfg)
  {
    hide IsRun, Exec, Units;
    var z := Init(partitions);
    assert IsRun(z, []) && Exec(z, []) == z by {
      NoSteps(z);
    }
    ReachesNext(z, z, Begin(cfg));
    var s1 := ReadsAll(z, Next(z, Begin(cfg)), cfg);
    ReachesNext(z, s1, Size);
    var s2 := Next(s1, Size);
    ReachesNext(z, s2, Push(0, 0, 0));
    var s3 := PlansAll(z, Next(s2, Push(0, 0, 0)));
    ReachesNext(z, s3, Start);
    assert Stalled(Next(s3, Start), cfg);
  }

  lemma NoSteps(s: State)
    requires |s.committed| == |s.logs|
    ensures IsRun(s, []) && Exec(s, []) == s
  {
  }

  /** An epoch sized by this configuration is about to finish, with planned units and nobody to process them. */
  ghost predicate Stalled(s: State, cfg: Config) {
    && Enabled(s, Finish) && s.epoch.value.sized.cfg == cfg
    && s.epoch.value.planned != [] && s.epoch.value.processed == [] && s.epoch.value.workers == []
  }
}
