/** Units of work for an epoch. */
module Stream {
  /* Ranges of uncommitted records are planned, stolen and processed in any order, and offsets are committed only
      when the epoch is over. */

  import opened Wrappers
  import opened Permutations

  datatype Record = Record(offset: nat, key: nat, value: nat)

  /** One stealable unit: a contiguous offset range of one partition. */
  datatype WorkUnit = WorkUnit(partition: nat, start: nat, end: nat, records: seq<Record>)

  // ---- plan_work ----

  /** A partition's log from `from` on, cut into consecutive units: each of between 1 and `max` records, and only the
      last of fewer than `max`. */
  ghost predicate CutInto(us: seq<WorkUnit>, p: nat, log: seq<Record>, from: nat, max: nat) {
    && (us == [] <==> from >= |log|)
    && (forall i :: 0 <= i < |us| ==> us[i].partition == p && us[i].start < us[i].end <= |log| && us[i].records == log[us[i].start..us[i].end])
    && (forall i :: 0 <= i < |us| ==> if i < |us| - 1 then us[i].end - us[i].start == max else us[i].end - us[i].start <= max)
    && (us != [] ==> us[0].start == from && us[|us| - 1].end == |log|)
    && (forall i :: 0 < i < |us| ==> us[i].start == us[i - 1].end)
  }

  /** The units of one partition from `start` up to the end of its log. */
  function Units(p: nat, log: seq<Record>, start: nat, max: nat): seq<WorkUnit>
    requires max >= 1
    decreases |log| - start
  {
    if start >= |log| then [] else
    var end := if start + max < |log| then start + max else |log|;
    [WorkUnit(p, start, end, log[start..end])] + Units(p, log, end, max)
  }

  lemma {:induction false} UnitsCut(p: nat, log: seq<Record>, start: nat, max: nat)
    requires max >= 1
    ensures CutInto(Units(p, log, start, max), p, log, start, max)
    decreases |log| - start
  {
    hide CutInto;
    if start >= |log| {
      NothingToCut(p, log, start, max);
    } else {
      var end := if start + max < |log| then start + max else |log|;
      UnitsCut(p, log, end, max);
      CutMore(WorkUnit(p, start, end, log[start..end]), Units(p, log, end, max), p, log, start, max);
    }
  }

  lemma NothingToCut(p: nat, log: seq<Record>, start: nat, max: nat)
    requires start >= |log|
    ensures CutInto([], p, log, start, max)
  {
  }

  lemma CutMore(u: WorkUnit, rest: seq<WorkUnit>, p: nat, log: seq<Record>, start: nat, max: nat)
    requires start < u.end <= |log| && u == WorkUnit(p, start, u.end, log[start..u.end]) && CutInto(rest, p, log, u.end, max)
    requires u.end - start <= max && (u.end < |log| ==> u.end - start == max)
    ensures CutInto([u] + rest, p, log, start, max)
  {
    var us := [u] + rest;
    forall i | 0 <= i < |us| ensures us[i] == if i == 0 then u else rest[i - 1] {
    }
    assert rest != [] ==> us[|us| - 1] == rest[|rest| - 1];
  }

  function PartOf(p: nat, u: WorkUnit): seq<Record> {
    if u.partition == p then u.records else []
  }

  /** The records of partition `p` in some units, in order. */
  function RecordsFor(p: nat, us: seq<WorkUnit>): seq<Record> {
    Flatten(Map((u: WorkUnit) => PartOf(p, u), us))
  }

  lemma RecordsForConcat(p: nat, a: seq<WorkUnit>, b: seq<WorkUnit>)
    ensures RecordsFor(p, a + b) == RecordsFor(p, a) + RecordsFor(p, b)
  {
    hide Map, Flatten;
    var f := (u: WorkUnit) => PartOf(p, u);
    MapConcat(f, a, b);
    FlattenConcat(Map(f, a), Map(f, b));
  }

  lemma RecordsForPermutes(p: nat, a: seq<WorkUnit>, b: seq<WorkUnit>)
    requires multiset(a) == multiset(b)
    ensures multiset(RecordsFor(p, a)) == multiset(RecordsFor(p, b))
  {
    hide Map, Flatten;
    var f := (u: WorkUnit) => PartOf(p, u);
    MapPermutes(f, a, b);
    FlattenPermutes(Map(f, a), Map(f, b));
  }

  lemma RecordsForOne(p: nat, u: WorkUnit)
    ensures RecordsFor(p, [u]) == PartOf(p, u) && RecordsFor(p, []) == []
  {
    assert [u][..0] == [];
    var f := (u: WorkUnit) => PartOf(p, u);
    assert Map(f, [u]) == [f(u)];
    FlattenOne(PartOf(p, u));
  }

  /** The units of a partition hold its uncommitted records in order, and nothing of any other partition. */
  lemma {:induction false} UnitsHold(p: nat, log: seq<Record>, start: nat, max: nat)
    requires max >= 1 && start <= |log|
    ensures RecordsFor(p, Units(p, log, start, max)) == log[start..]
    ensures forall p' :: p' != p ==> RecordsFor(p', Units(p, log, start, max)) == []
    ensures forall u :: u in Units(p, log, start, max) ==> u.partition == p && start < u.end <= |log|
    ensures start < |log| ==> exists u :: u in Units(p, log, start, max) && u.end == |log|
    decreases |log| - start
  {
    hide RecordsFor;
    if start == |log| {
      RecordsForOne(p, WorkUnit(p, 0, 0, []));
      forall p' ensures RecordsFor(p', []) == [] {
        RecordsForOne(p', WorkUnit(p, 0, 0, []));
      }
    } else {
      var end := if start + max < |log| then start + max else |log|;
      var u, rest := WorkUnit(p, start, end, log[start..end]), Units(p, log, end, max);
      UnitsHold(p, log, end, max);
      forall p' ensures RecordsFor(p', [u] + rest) == PartOf(p', u) + RecordsFor(p', rest) {
        RecordsForConcat(p', [u], rest);
        RecordsForOne(p', u);
      }
      assert u in [u] + rest;
    }
  }

  /** The loop of `plan_work` over one partition. */
  method PlanPartition(p: nat, log: seq<Record>, committed: nat, max: nat) returns (units: seq<WorkUnit>)
    requires max >= 1
    ensures units == Units(p, log, committed, max)
    ensures CutInto(units, p, log, committed, max)
  {
    hide CutInto;
    UnitsCut(p, log, committed, max);
    units := [];
    var start := committed;
    while start < |log|
      invariant units + Units(p, log, start, max) == Units(p, log, committed, max)
    {
      var end := if start + max < |log| then start + max else |log|;
      units := units + [WorkUnit(p, start, end, log[start..end])];
      start := end;
    }
  }

  // ---- the system ----

  /** A thread of the epoch: between units, processing one, or about to record its progress. */
  datatype Worker = Ready | Holding(u: WorkUnit) | Marking(u: WorkUnit) | Stopped

  /** `SizerConfig` and `n_local`. */
  datatype Config = Config(perWorker: nat, minWorkers: nat, maxWorkers: nat, maxPerUnit: nat, local: nat)

  /** The lag that was read, and what the epoch is sized by. */
  datatype Sized = Sized(lag: nat, cfg: Config) {
    /** `size_workers`; clamping to an empty range is a panic, which `Possible` leaves out. */
    function FromLag(): nat {
      if lag == 0 then 0 else
      var per := if cfg.perWorker < 1 then 1 else cfg.perWorker;
      var n := (lag + per - 1) / per;
      if n < cfg.minWorkers then cfg.minWorkers else if n > cfg.maxWorkers then cfg.maxWorkers else n
    }

    predicate Possible() {
      lag == 0 || cfg.minWorkers <= cfg.maxWorkers
    }

    function Threads(): nat {
      if FromLag() < cfg.local then cfg.local else FromLag()
    }

    function PerUnit(): nat {
      if cfg.maxPerUnit < 1 then 1 else cfg.maxPerUnit
    }
  }

  /** The count sized from a lag is in its range, and unless it is the least, fewer would not do for the lag; unless it
      is the greatest, it does. */
  lemma SizedFor(z: Sized)
    requires z.lag > 0 && z.cfg.minWorkers <= z.cfg.maxWorkers
    ensures var n := z.FromLag();
            && z.Possible() && z.cfg.minWorkers <= n <= z.cfg.maxWorkers
            && (n > z.cfg.minWorkers ==> (n - 1) * Most(z.cfg.perWorker, 1) < z.lag)
            && (n < z.cfg.maxWorkers ==> n * Most(z.cfg.perWorker, 1) >= z.lag)
            && z.Threads() == Most(n, z.cfg.local) && z.PerUnit() == Most(z.cfg.maxPerUnit, 1)
  {
    var per := Most(z.cfg.perWorker, 1);
    RoundedUp(z.lag, per);
    var k := (z.lag + per - 1) / per;
    if z.FromLag() < k {
      Times(z.FromLag(), k - 1, per);
    } else if z.FromLag() > k {
      Times(k, z.FromLag(), per);
    }
  }

  function Most(a: nat, b: nat): (m: nat)
    ensures m >= a && m >= b && (m == a || m == b)
  {
    if a > b then a else b
  }

  lemma RoundedUp(lag: nat, per: nat)
    requires lag > 0 && per > 0
    ensures var k := (lag + per - 1) / per; k > 0 && (k - 1) * per < lag <= k * per
  {
    var k := (lag + per - 1) / per;
    assert k * per <= lag + per - 1 < (k + 1) * per;
    assert (k - 1) * per == k * per - per && (k + 1) * per == k * per + per;
  }

  lemma Times(a: nat, b: nat, per: nat)
    requires a <= b
    ensures a * per <= b * per
  {
  }

  /** Some thread runs exactly if there are local ones, or there was lag and workers are allowed. */
  lemma ThreadsIff(z: Sized)
    requires z.Possible()
    ensures z.Threads() > 0 <==> z.cfg.local > 0 || (z.lag > 0 && z.cfg.maxWorkers > 0)
  {
    if z.lag > 0 {
      var per := if z.cfg.perWorker < 1 then 1 else z.cfg.perWorker;
      assert (z.lag + per - 1) / per >= 1;
    }
  }

  /** `read` counts the partitions whose lag has been read, `high` is how far each partition was planned, `planned` the
      units, `processed` those handed to `process`, and `before` everything handed over in earlier epochs. */
  datatype Epoch =
    | Sizing(read: nat, sized: Sized)
    | Planning(units: seq<WorkUnit>, high: seq<nat>, sized: Sized)
    | Running(queue: seq<WorkUnit>, workers: seq<Worker>, progress: seq<nat>,
              high: seq<nat>, planned: seq<WorkUnit>, processed: seq<WorkUnit>, before: seq<WorkUnit>, sized: Sized)
    | Committing(next: nat, progress: seq<nat>)

  /** One consumer: the partition logs, its committed offsets, what it was handed so far, and its epoch if any. */
  datatype State = State(logs: seq<seq<Record>>, committed: seq<nat>, delivered: seq<WorkUnit>, epoch: Option<Epoch>)

  datatype Step =
    | Push(p: nat, key: nat, value: nat)
    | Begin(cfg: Config)
    | Read                    // the lag of one more partition
    | Size
    | Plan
    | Skip                    // nothing was planned
    | Start
    | Steal(w: nat)
    | Deliver(w: nat)         // `process` returns
    | Mark(w: nat)
    | Stop(w: nat)
    | Finish                  // every thread has stopped
    | Commit
    | End
    | Abort                   // a crash, or a failing offset store

  function AllReady(n: nat): (ws: seq<Worker>)
    ensures |ws| == n && forall w :: 0 <= w < n ==> ws[w] == Ready
  {
    seq(n, _ => Ready)
  }

  ghost predicate Enabled(s: State, step: Step) {
    match step
    case Push(p, _, _) => p < |s.logs|
    case Begin(_) => s.epoch.None?
    case Read => s.epoch.Some? && s.epoch.value.Sizing? && s.epoch.value.read < |s.logs|
    case Size => s.epoch.Some? && s.epoch.value.Sizing? && s.epoch.value.read >= |s.logs| && s.epoch.value.sized.Possible()
    case Plan => s.epoch.Some? && s.epoch.value.Planning? && |s.epoch.value.high| < |s.logs|
    case Skip => s.epoch.Some? && s.epoch.value.Planning? && |s.epoch.value.high| == |s.logs| && s.epoch.value.units == []
    case Start => s.epoch.Some? && s.epoch.value.Planning? && |s.epoch.value.high| == |s.logs| && s.epoch.value.units != []
    case Steal(w) => InRun(s, w) && s.epoch.value.workers[w].Ready? && s.epoch.value.queue != []
    case Deliver(w) => InRun(s, w) && s.epoch.value.workers[w].Holding?
    case Mark(w) => InRun(s, w) && s.epoch.value.workers[w].Marking? && s.epoch.value.workers[w].u.partition < |s.epoch.value.progress|
    case Stop(w) => InRun(s, w) && s.epoch.value.workers[w].Ready? && s.epoch.value.queue == []
    case Finish =>
      s.epoch.Some? && s.epoch.value.Running?
      && forall w :: 0 <= w < |s.epoch.value.workers| ==> s.epoch.value.workers[w] == Stopped
    case Commit =>
      && s.epoch.Some? && s.epoch.value.Committing?
      && s.epoch.value.next < |s.epoch.value.progress| && s.epoch.value.next < |s.committed|
    case End => s.epoch.Some? && s.epoch.value.Committing? && s.epoch.value.next >= |s.epoch.value.progress|
    case Abort => s.epoch.Some?
  }

  ghost predicate InRun(s: State, w: nat) {
    s.epoch.Some? && s.epoch.value.Running? && w < |s.epoch.value.workers|
  }

  ghost function Next(s: State, step: Step): State
    requires Enabled(s, step) && |s.committed| == |s.logs|
  {
    match step
    case Push(p, key, value) => s.(logs := s.logs[p := s.logs[p] + [Record(|s.logs[p]|, key, value)]])
    case Begin(cfg) => s.(epoch := Some(Sizing(0, Sized(0, cfg))))
    case Read =>
      var e := s.epoch.value;
      var lag := if s.committed[e.read] < |s.logs[e.read]| then |s.logs[e.read]| - s.committed[e.read] else 0;
      s.(epoch := Some(Sizing(e.read + 1, e.sized.(lag := e.sized.lag + lag))))
    case Size => s.(epoch := Some(Planning([], [], s.epoch.value.sized)))
    case Plan =>
      var e := s.epoch.value;
      var p := |e.high|;
      var units := Units(p, s.logs[p], s.committed[p], e.sized.PerUnit());
      var high := if s.committed[p] < |s.logs[p]| then |s.logs[p]| else s.committed[p];
      s.(epoch := Some(e.(units := e.units + units, high := e.high + [high])))
    case Skip => s.(epoch := None)
    case Start =>
      var e := s.epoch.value;
      s.(epoch := Some(Running(e.units, AllReady(e.sized.Threads()), s.committed, e.high, e.units, [], s.delivered, e.sized)))
    case Steal(w) =>
      var e := s.epoch.value;
      var last := |e.queue| - 1;
      s.(epoch := Some(e.(queue := e.queue[..last], workers := e.workers[w := Holding(e.queue[last])])))
    case Deliver(w) =>
      var e := s.epoch.value;
      var u := e.workers[w].u;
      s.(delivered := s.delivered + [u], epoch := Some(e.(workers := e.workers[w := Marking(u)], processed := e.processed + [u])))
    case Mark(w) =>
      var e := s.epoch.value;
      var u := e.workers[w].u;
      s.(epoch := Some(e.(workers := e.workers[w := Ready],
                          progress := if u.end > e.progress[u.partition] then e.progress[u.partition := u.end] else e.progress)))
    case Stop(w) =>
      var e := s.epoch.value;
      s.(epoch := Some(e.(workers := e.workers[w := Stopped])))
    case Finish => s.(epoch := Some(Committing(0, s.epoch.value.progress)))
    case Commit =>
      var e := s.epoch.value;
      s.(committed := if e.progress[e.next] > s.committed[e.next] then s.committed[e.next := e.progress[e.next]] else s.committed,
         epoch := Some(e.(next := e.next + 1)))
    case End => s.(epoch := None)
    case Abort => s.(epoch := None)
  }

  ghost predicate IsRun(s: State, steps: seq<Step>)
    requires |s.committed| == |s.logs|
    decreases |steps|
  {
    steps == [] || (Enabled(s, steps[0]) && IsRun(Next(s, steps[0]), steps[1..]))
  }

  ghost function Exec(s: State, steps: seq<Step>): State
    requires |s.committed| == |s.logs| && IsRun(s, steps)
    decreases |steps|
  {
    if steps == [] then s else Exec(Next(s, steps[0]), steps[1..])
  }

  ghost function Init(partitions: nat): State {
    State(seq(partitions, _ => []), seq(partitions, _ => 0), [], None)
  }
}
