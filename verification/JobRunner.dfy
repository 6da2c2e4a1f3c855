/** The older server as a state machine: what a worker writes while it runs a job, in which order, and what is
    left of it when the process dies at any point. */
module JobRunner {
  import opened Etcd
  import JobFeed

  const RUNNING: string := "running"
  const DONE: string := "done"
  const FAIL: string := "fail"

  function Verdict(ok: bool): string { if ok then DONE else FAIL }

  predicate IsVerdict(status: string) { status == DONE || status == FAIL }

  predicate JudgesJob(e: Event, job: string) {
    e.Put? && e.key == StateKey(job) && IsVerdict(e.value)
  }

  /** Whether a job node holds a command that can be run is left to the configuration. */
  datatype Config = Config(server: string, slots: nat, runnable: string -> bool)

  /** One run of a job.  Output and success mean nothing before the command has ended; an old output has been
      cleared if there was one to delete. */
  datatype Attempt = Attempt(job: string, cleared: bool, output: string, ok: bool)

  datatype Phase = Fetched | Cleared | Marked | Exited | Printed | Judged

  datatype Worker = Idle | Taken(job: string) | At(phase: Phase, run: nat, attempt: Attempt)

  /** Who made a write.  Runs are numbered as they begin. */
  datatype Actor = Client | Run(id: nat)

  datatype Entry = Entry(event: Event, actor: Actor)

  datatype State = State(
    store: Store,
    feed: JobFeed.Feed,
    workers: seq<Worker>,
    log: seq<Entry>,       // history: every event the store has emitted
    runs: nat,             // history: the number of runs begun
    missed: set<string>,   // history: assigned after the listing but before the watch
    dropped: set<string>)  // history: taken by a worker that found nothing to run

  datatype Step =
    | ClientWrite(event: Event)
    | OpenWatch
    | ListJobs(jobs: seq<string>)
    | SendListed
    | Receive
    | SendWatched
    | Take(slot: nat)
    | Fetch(slot: nat)
    | Clear(slot: nat)
    | Mark(slot: nat)
    | Execute(slot: nat, output: string, ok: bool)
    | Print(slot: nat)
    | Judge(slot: nat)
    | Remove(slot: nat)
    | Crash

  function Boot(cfg: Config, store: Store, log: seq<Entry>, runs: nat): State {
    State(store, JobFeed.STOPPED, seq(cfg.slots, _ => Idle), log, runs, {}, {})
  }

  predicate InPhase(s: State, slot: nat, phase: Phase) {
    slot < |s.workers| && s.workers[slot].At? && s.workers[slot].phase == phase
  }

  /** The watch is opened in a goroutine of its own, so it may come before or after the listing. */
  predicate Enabled(cfg: Config, s: State, step: Step) {
    match step
    case ClientWrite(_) => true
    case OpenWatch => !s.feed.watching
    case ListJobs(jobs) => s.feed.listing.None? && JobFeed.IsListing(cfg.server, s.store, jobs)
    case SendListed => s.feed.unsent != [] && |s.feed.queue| < cfg.slots
    case Receive =>
      s.feed.hand.None? && s.feed.pending != [] && AssignDir(cfg.server) <= s.feed.pending[0].key
    case SendWatched => s.feed.hand.Some? && |s.feed.queue| < cfg.slots
    case Take(i) => i < |s.workers| && s.workers[i].Idle? && s.feed.queue != []
    case Fetch(i) => i < |s.workers| && s.workers[i].Taken?
    case Clear(i) => InPhase(s, i, Fetched)
    case Mark(i) => InPhase(s, i, Cleared)
    case Execute(i, _, _) => InPhase(s, i, Marked)
    case Print(i) => InPhase(s, i, Exited)
    case Judge(i) => InPhase(s, i, Printed)
    case Remove(i) => InPhase(s, i, Judged)
    case Crash => true
  }

  /** A job is missed when it is assigned after the listing with no watch, until it is assigned again under the
      watch or unassigned. */
  function MissedAfter(cfg: Config, s: State, e: Event): set<string> {
    if !(AssignDir(cfg.server) <= e.key) then s.missed
    else if e.Delete? || s.feed.watching then s.missed - {JobOf(cfg.server, e.key)}
    else if s.feed.listing.Some? then s.missed + {JobOf(cfg.server, e.key)}
    else s.missed
  }

  function DroppedAfter(cfg: Config, s: State, e: Event): set<string> {
    if AssignDir(cfg.server) <= e.key && (e.Delete? || s.feed.watching)
    then s.dropped - {JobOf(cfg.server, e.key)}
    else s.dropped
  }

  function Write(cfg: Config, s: State, e: Event, actor: Actor): State {
    if Emits(s.store, e)
    then s.(store := Apply(s.store, e), feed := JobFeed.Observe(cfg.server, s.feed, e),
            log := s.log + [Entry(e, actor)], missed := MissedAfter(cfg, s, e), dropped := DroppedAfter(cfg, s, e))
    else s
  }

  /** A worker makes a write and moves on. */
  function Advance(cfg: Config, s: State, i: nat, phase: Phase, e: Event): State
    requires i < |s.workers| && s.workers[i].At?
  {
    var w := s.workers[i];
    Write(cfg, s.(workers := s.workers[i := w.(phase := phase)]), e, Run(w.run))
  }

  function Do(cfg: Config, s: State, step: Step): State
    requires Enabled(cfg, s, step)
  {
    match step
    case ClientWrite(e) => Write(cfg, s, e, Client)
    case OpenWatch => s.(feed := s.feed.(watching := true))
    case ListJobs(jobs) => s.(feed := JobFeed.List(s.feed, jobs))
    case SendListed => s.(feed := JobFeed.SendListed(s.feed))
    case Receive => s.(feed := JobFeed.Receive(cfg.server, s.feed))
    case SendWatched => s.(feed := JobFeed.SendWatched(s.feed))
    case Take(i) => s.(feed := JobFeed.Take(s.feed), workers := s.workers[i := Taken(s.feed.queue[0])])
    case Fetch(i) =>
      var job := s.workers[i].job;
      if JobKey(job) in s.store && cfg.runnable(s.store[JobKey(job)])
      then s.(workers := s.workers[i := At(Fetched, s.runs, Attempt(job, false, "", false))], runs := s.runs + 1)
      else s.(workers := s.workers[i := Idle],
              dropped := if AssignKey(cfg.server, job) in s.store then s.dropped + {job} else s.dropped)
    case Clear(i) =>
      var w := s.workers[i];
      var e := Delete(OutputKey(w.attempt.job));
      var attempt := w.attempt.(cleared := Emits(s.store, e));
      Advance(cfg, s.(workers := s.workers[i := w.(attempt := attempt)]), i, Cleared, e)
    case Mark(i) => Advance(cfg, s, i, Marked, Put(StateKey(s.workers[i].attempt.job), RUNNING))
    case Execute(i, output, ok) =>
      var w := s.workers[i];
      s.(workers := s.workers[i := At(Exited, w.run, w.attempt.(output := output, ok := ok))])
    case Print(i) =>
      var attempt := s.workers[i].attempt;
      Advance(cfg, s, i, Printed, Put(OutputKey(attempt.job), attempt.output))
    case Judge(i) =>
      var attempt := s.workers[i].attempt;
      Advance(cfg, s, i, Judged, Put(StateKey(attempt.job), Verdict(attempt.ok)))
    case Remove(i) =>
      var w := s.workers[i];
      Write(cfg, s.(workers := s.workers[i := Idle]), Delete(AssignKey(cfg.server, w.attempt.job)), Run(w.run))
    case Crash => Boot(cfg, s.store, s.log, s.runs)
  }

  function After(cfg: Config, s: State, steps: seq<Step>): Option<State>
    decreases |steps|
  {
    if steps == [] then Some(s)
    else if Enabled(cfg, s, steps[0]) then After(cfg, Do(cfg, s, steps[0]), steps[1..])
    else None
  }

  // ---- What each step writes

  /** What becomes of the store, step by step, whatever else goes on: a client's put or delete does what it says; a
      worker deletes the old output, then puts its state, the output and the verdict of its command, and at last
      removes its assign key.  No other step writes, and no crash loses anything. */
  lemma WhatStepsWrite(cfg: Config, s: State, step: Step)
    requires Enabled(cfg, s, step)
    ensures Do(cfg, s, step).store ==
      match step
      case ClientWrite(Put(k, v)) => s.store[k := v]
      case ClientWrite(Delete(k)) => s.store - {k}
      case Clear(i) => s.store - {"crms/job/" + s.workers[i].attempt.job + "/state/stdouterr"}
      case Mark(i) => s.store["crms/job/" + s.workers[i].attempt.job + "/state" := "running"]
      case Print(i) =>
        s.store["crms/job/" + s.workers[i].attempt.job + "/state/stdouterr" := s.workers[i].attempt.output]
      case Judge(i) =>
        s.store["crms/job/" + s.workers[i].attempt.job + "/state" := if s.workers[i].attempt.ok then "done" else "fail"]
      case Remove(i) => s.store - {"crms/assign/" + cfg.server + "/" + s.workers[i].attempt.job}
      case _ => s.store
  {
    if step.Clear? || step.Mark? || step.Print? || step.Judge? || step.Remove? {
      KeysSpelled(cfg.server, s.workers[step.slot].attempt.job);
    }
  }

  lemma KeysSpelled(server: string, job: string)
    ensures JobKey(job) == "crms/job/" + job && StateKey(job) == "crms/job/" + job + "/state"
    ensures OutputKey(job) == "crms/job/" + job + "/state/stdouterr"
    ensures AssignKey(server, job) == "crms/assign/" + server + "/" + job
  {
  }

  /** What a worker does with the job it has taken: it goes on to run it exactly if its node is there and holds a
      command that can be run, and otherwise takes the next. */
  lemma FetchesIff(cfg: Config, s: State, i: nat)
    requires Enabled(cfg, s, Fetch(i))
    ensures var job, t := s.workers[i].job, Do(cfg, s, Fetch(i));
      && t.log == s.log && t.feed == s.feed && |t.workers| == |s.workers|
      && (forall k | 0 <= k < |s.workers| && k != i :: t.workers[k] == s.workers[k])
      && if "crms/job/" + job in s.store && cfg.runnable(s.store["crms/job/" + job])
         then InPhase(t, i, Fetched) && t.workers[i].attempt.job == job && t.workers[i].run == s.runs == t.runs - 1
         else t.workers[i] == Idle && t.runs == s.runs
  {
    KeysSpelled(cfg.server, s.workers[i].job);
  }

  // ---- The order of a run's writes

  /** What a run writes, from beginning to end. */
  function Writes(cfg: Config, a: Attempt): seq<Event> {
    (if a.cleared then [Delete(OutputKey(a.job))] else [])
    + [Put(StateKey(a.job), RUNNING), Put(OutputKey(a.job), a.output), Put(StateKey(a.job), Verdict(a.ok)),
       Delete(AssignKey(cfg.server, a.job))]
  }

  function WritesMade(phase: Phase, a: Attempt): nat {
    (if a.cleared then 1 else 0) +
    match phase
    case Fetched => 0
    case Cleared => 0
    case Marked => 1
    case Exited => 1
    case Printed => 2
    case Judged => 3
  }

  /** The writes of one run, as the store has seen them. */
  function Trail(log: seq<Entry>, run: nat): seq<Event> {
    if log == [] then []
    else Trail(log[..|log| - 1], run) +
         (if log[|log| - 1].actor == Run(run) then [log[|log| - 1].event] else [])
  }

  lemma TrailAppend(log: seq<Entry>, e: Entry, run: nat)
    ensures Trail(log + [e], run) == Trail(log, run) + (if e.actor == Run(run) then [e.event] else [])
  {
    assert (log + [e])[..|log|] == log;
  }

  ghost predicate IsTrail(cfg: Config, trail: seq<Event>) {
    exists a :: trail <= Writes(cfg, a)
  }

  predicate WorkerInv(cfg: Config, log: seq<Entry>, runs: nat, w: Worker) {
    w.At? ==>
      && w.run < runs
      && (w.phase == Fetched ==> !w.attempt.cleared)
      && Trail(log, w.run) == Writes(cfg, w.attempt)[..WritesMade(w.phase, w.attempt)]
  }

  predicate DistinctRuns(workers: seq<Worker>) {
    forall i, j | 0 <= i < j < |workers| && workers[i].At? && workers[j].At? :: workers[i].run != workers[j].run
  }

  ghost predicate TrailsInv(cfg: Config, log: seq<Entry>, runs: nat) {
    && (forall run | run >= runs :: Trail(log, run) == [])
    && (forall run: nat :: IsTrail(cfg, Trail(log, run)))
  }

  /** The writes of every run, past or present, come in the one order and stop at some point of it; the writes
      of a run still going on are exactly those its phase says. */
  ghost predicate OrderInv(cfg: Config, s: State) {
    && |s.workers| == cfg.slots
    && DistinctRuns(s.workers)
    && (forall i | 0 <= i < |s.workers| :: WorkerInv(cfg, s.log, s.runs, s.workers[i]))
    && TrailsInv(cfg, s.log, s.runs)
  }

  /** Replacing one worker by one that goes on with the same run, or begins one, or is free. */
  lemma ReplaceKeepsOrder(cfg: Config, s: State, i: nat, w: Worker, runs: nat)
    requires OrderInv(cfg, s) && i < |s.workers| && s.runs <= runs
    requires WorkerInv(cfg, s.log, runs, w)
    requires w.At? ==> w.run == s.runs || (s.workers[i].At? && w.run == s.workers[i].run)
    ensures OrderInv(cfg, s.(workers := s.workers[i := w], runs := runs))
  {
    var workers := s.workers[i := w];
    forall k | 0 <= k < |workers|
      ensures WorkerInv(cfg, s.log, runs, workers[k])
      ensures k != i && w.At? && workers[k].At? ==> workers[k].run != w.run
    {
      assert WorkerInv(cfg, s.log, s.runs, s.workers[k]);
    }
  }

  /** A client's write is in no run's trail. */
  lemma ClientKeepsOrder(cfg: Config, s: State, e: Event)
    requires OrderInv(cfg, s)
    ensures OrderInv(cfg, Write(cfg, s, e, Client))
  {
    forall run: nat
      ensures Trail(s.log + [Entry(e, Client)], run) == Trail(s.log, run)
    {
      TrailAppend(s.log, Entry(e, Client), run);
    }
  }

  lemma WriteKeepsTrails(cfg: Config, log: seq<Entry>, runs: nat, r: nat, e: Event)
    requires TrailsInv(cfg, log, runs) && r < runs && IsTrail(cfg, Trail(log, r) + [e])
    ensures TrailsInv(cfg, log + [Entry(e, Run(r))], runs)
  {
    forall run: nat
      ensures Trail(log + [Entry(e, Run(r))], run) == Trail(log, run) + (if run == r then [e] else [])
    {
      TrailAppend(log, Entry(e, Run(r)), run);
    }
  }

  /** Worker i makes the next write of its run, or finds that it is not needed. */
  lemma WriteKeepsOrder(cfg: Config, s: State, i: nat, w: Worker, e: Event)
    requires OrderInv(cfg, s) && i < |s.workers| && s.workers[i].At?
    requires w.Idle? || (w.At? && w.run == s.workers[i].run && w.phase != Fetched)
    requires Emits(s.store, e) ==> IsTrail(cfg, Trail(s.log, s.workers[i].run) + [e])
    requires w.At? ==> Writes(cfg, w.attempt)[..WritesMade(w.phase, w.attempt)]
                       == Trail(s.log, s.workers[i].run) + (if Emits(s.store, e) then [e] else [])
    ensures OrderInv(cfg, Write(cfg, s.(workers := s.workers[i := w]), e, Run(s.workers[i].run)))
  {
    var r := s.workers[i].run;
    assert WorkerInv(cfg, s.log, s.runs, s.workers[i]);
    if Emits(s.store, e) {
      var log, workers := s.log + [Entry(e, Run(r))], s.workers[i := w];
      WriteKeepsTrails(cfg, s.log, s.runs, r, e);
      forall k | 0 <= k < |workers|
        ensures WorkerInv(cfg, log, s.runs, workers[k])
      {
        assert WorkerInv(cfg, s.log, s.runs, s.workers[k]);
        TrailAppend(s.log, Entry(e, Run(r)), if s.workers[k].At? then s.workers[k].run else r);
      }
    } else {
      ReplaceKeepsOrder(cfg, s, i, w, s.runs);
    }
  }

  /** The writes made in a phase, and the write that leads to the next. */
  lemma NextWrite(cfg: Config, a: Attempt, n: nat)
    requires n < |Writes(cfg, a)|
    ensures Writes(cfg, a)[..n + 1] == Writes(cfg, a)[..n] + [Writes(cfg, a)[n]]
    ensures IsTrail(cfg, Writes(cfg, a)[..n + 1])
  {
    assert Writes(cfg, a)[..n + 1] <= Writes(cfg, a);
  }

  lemma StepKeepsOrder(cfg: Config, s: State, step: Step)
    requires OrderInv(cfg, s) && Enabled(cfg, s, step)
    ensures OrderInv(cfg, Do(cfg, s, step))
  {
    match step {
      case ClientWrite(e) => ClientKeepsOrder(cfg, s, e);
      case Take(i) => ReplaceKeepsOrder(cfg, s, i, Taken(s.feed.queue[0]), s.runs);
      case Fetch(i) =>
        ReplaceKeepsOrder(cfg, s, i, Idle, s.runs);
        ReplaceKeepsOrder(cfg, s, i, At(Fetched, s.runs, Attempt(s.workers[i].job, false, "", false)), s.runs + 1);
      case Clear(i) => ClearKeepsOrder(cfg, s, i);
      case Mark(i) => LaterKeepsOrder(cfg, s, i, step);
      case Execute(i, output, ok) => ExecuteKeepsOrder(cfg, s, i, output, ok);
      case Print(i) => LaterKeepsOrder(cfg, s, i, step);
      case Judge(i) => LaterKeepsOrder(cfg, s, i, step);
      case Remove(i) => LaterKeepsOrder(cfg, s, i, step);
      case _ =>
    }
  }

  lemma ClearKeepsOrder(cfg: Config, s: State, i: nat)
    requires OrderInv(cfg, s) && Enabled(cfg, s, Clear(i))
    ensures OrderInv(cfg, Do(cfg, s, Clear(i)))
  {
    var w := s.workers[i];
    assert WorkerInv(cfg, s.log, s.runs, w);
    var e := Delete(OutputKey(w.attempt.job));
    var attempt := w.attempt.(cleared := Emits(s.store, e));
    var next := w.(phase := Cleared, attempt := attempt);
    NextWrite(cfg, attempt, 0);
    assert Writes(cfg, attempt)[..0] == [];
    WriteKeepsOrder(cfg, s, i, next, e);
    assert s.workers[i := w.(attempt := attempt)][i := next] == s.workers[i := next];
  }

  lemma ExecuteKeepsOrder(cfg: Config, s: State, i: nat, output: string, ok: bool)
    requires OrderInv(cfg, s) && Enabled(cfg, s, Execute(i, output, ok))
    ensures OrderInv(cfg, Do(cfg, s, Execute(i, output, ok)))
  {
    var w := s.workers[i];
    assert WorkerInv(cfg, s.log, s.runs, w);
    var attempt, n := w.attempt.(output := output, ok := ok), WritesMade(Marked, w.attempt);
    assert Writes(cfg, w.attempt)[..n] == Writes(cfg, attempt)[..n];
    ReplaceKeepsOrder(cfg, s, i, At(Exited, w.run, attempt), s.runs);
  }

  lemma LaterKeepsOrder(cfg: Config, s: State, i: nat, step: Step)
    requires OrderInv(cfg, s) && Enabled(cfg, s, step)
    requires step == Mark(i) || step == Print(i) || step == Judge(i) || step == Remove(i)
    ensures OrderInv(cfg, Do(cfg, s, step))
  {
    var w := s.workers[i];
    assert WorkerInv(cfg, s.log, s.runs, w);
    var next, n := LaterIsWrite(cfg, s, i, step);
    NextWrite(cfg, w.attempt, n);
    WriteKeepsOrder(cfg, s, i, next, Writes(cfg, w.attempt)[n]);
  }

  lemma LaterIsWrite(cfg: Config, s: State, i: nat, step: Step) returns (next: Worker, n: nat)
    requires Enabled(cfg, s, step)
    requires step == Mark(i) || step == Print(i) || step == Judge(i) || step == Remove(i)
    ensures var w := s.workers[i];
      && n == WritesMade(w.phase, w.attempt) < |Writes(cfg, w.attempt)|
      && Do(cfg, s, step) ==
         Write(cfg, s.(workers := s.workers[i := next]), Writes(cfg, w.attempt)[n], Run(w.run))
      && (next.At? ==> next == w.(phase := next.phase) && next.phase != Fetched && Writes(cfg, w.attempt)[n].Put?
                       && WritesMade(next.phase, w.attempt) == n + 1)
      && (next.At? || next.Idle?)
  {
    var w := s.workers[i];
    n := WritesMade(w.phase, w.attempt);
    next := match w.phase
      case Cleared => w.(phase := Marked)
      case Exited => w.(phase := Printed)
      case Printed => w.(phase := Judged)
      case _ => Idle;
  }
}
