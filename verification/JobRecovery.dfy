/** What the older server guarantees about the jobs assigned to it, across any number of crashes. */
module JobRecovery {
  import opened Etcd
  import opened JobRunner
  import JobFeed

  function Events(log: seq<Entry>): (r: seq<Event>)
    ensures |r| == |log|
  {
    seq(|log|, i requires 0 <= i < |log| => log[i].event)
  }

  /** The store is what its history says, and all writes respect the order of their runs. */
  ghost predicate HistoryInv(cfg: Config, initial: Store, s: State) {
    s.store == Replay(initial, Events(s.log)) && OrderInv(cfg, s)
  }

  lemma FirstBoot(cfg: Config, store: Store)
    ensures HistoryInv(cfg, store, Boot(cfg, store, [], 0))
  {
    assert [] <= Writes(cfg, Attempt("", false, "", false));
    assert IsTrail(cfg, []);
  }

  /** What a step may write. */
  lemma StepWrites(cfg: Config, s: State, step: Step) returns (e: Event, actor: Actor)
    requires Enabled(cfg, s, step)
    ensures var t := Do(cfg, s, step);
            || (t.store == s.store && t.log == s.log)
            || (t.store == Apply(s.store, e) && t.log == s.log + [Entry(e, actor)])
  {
    match step {
      case ClientWrite(w) => e, actor := w, Client;
      case Clear(i) => e, actor := Delete(OutputKey(s.workers[i].attempt.job)), Run(s.workers[i].run);
      case Mark(i) => e, actor := Put(StateKey(s.workers[i].attempt.job), RUNNING), Run(s.workers[i].run);
      case Print(i) =>
        e, actor := Put(OutputKey(s.workers[i].attempt.job), s.workers[i].attempt.output), Run(s.workers[i].run);
      case Judge(i) =>
        e, actor := Put(StateKey(s.workers[i].attempt.job), Verdict(s.workers[i].attempt.ok)), Run(s.workers[i].run);
      case Remove(i) => e, actor := Delete(AssignKey(cfg.server, s.workers[i].attempt.job)), Run(s.workers[i].run);
      case _ => e, actor := Delete(""), Client;
    }
  }

  lemma StepKeepsHistory(cfg: Config, initial: Store, s: State, step: Step)
    requires HistoryInv(cfg, initial, s) && Enabled(cfg, s, step)
    ensures HistoryInv(cfg, initial, Do(cfg, s, step)) && s.log <= Do(cfg, s, step).log
  {
    var e, actor := StepWrites(cfg, s, step);
    assert Events(s.log + [Entry(e, actor)]) == Events(s.log) + [e];
    ReplayAppend(initial, Events(s.log), e);
    StepKeepsOrder(cfg, s, step);
  }

  lemma {:induction false} RunsKeepHistory(cfg: Config, initial: Store, s: State, steps: seq<Step>, t: State)
    requires HistoryInv(cfg, initial, s) && After(cfg, s, steps) == Some(t)
    ensures HistoryInv(cfg, initial, t) && s.log <= t.log
    decreases |steps|
  {
    if steps != [] {
      StepKeepsHistory(cfg, initial, s, steps[0]);
      RunsKeepHistory(cfg, initial, Do(cfg, s, steps[0]), steps[1..], t);
    }
  }

  // ---- No removal without a verdict

  lemma {:induction false} TrailOfPrefix(log: seq<Entry>, n: nat, run: nat)
    requires n <= |log|
    ensures Trail(log[..n], run) <= Trail(log, run)
  {
    if n == |log| {
      assert log[..n] == log;
    } else {
      TrailOfPrefix(log[..|log| - 1], n, run);
      assert log[..|log| - 1][..n] == log[..n];
    }
  }

  /** Some run of the job has marked it running, saved its output and recorded its verdict, in this order. */
  ghost predicate HasVerdict(cfg: Config, log: seq<Entry>, job: string) {
    exists run: nat, a: Attempt :: a.job == job && Trail(log, run) == Writes(cfg, a)[..WritesMade(Judged, a)]
  }

  lemma RemovalIsTheLastWrite(cfg: Config, a: Attempt, n: nat, job: string)
    requires n < |Writes(cfg, a)| && Writes(cfg, a)[n] == Delete(AssignKey(cfg.server, job))
    ensures n == WritesMade(Judged, a) && a.job == job
  {
    assert OutputKey(a.job)[5] == 'j' && AssignKey(cfg.server, job)[5] == 'a';
    JobOfAssignKey(cfg.server, job);
    JobOfAssignKey(cfg.server, a.job);
  }

  /** When a run removes an assign key, a verdict on that job has been recorded before. */
  lemma RemovedAfterVerdict(cfg: Config, log: seq<Entry>, runs: nat, q: nat, job: string)
    requires TrailsInv(cfg, log, runs) && q < |log|
    requires log[q].actor.Run? && log[q].event == Delete(AssignKey(cfg.server, job))
    ensures HasVerdict(cfg, log[..q], job)
  {
    var run := log[q].actor.id;
    TrailOfPrefix(log, q + 1, run);
    assert log[..q + 1] == log[..q] + [log[q]];
    TrailAppend(log[..q], log[q], run);
    assert IsTrail(cfg, Trail(log, run));
    var a :| Trail(log, run) <= Writes(cfg, a);
    var n := |Trail(log[..q], run)|;
    assert Trail(log[..q + 1], run) == Writes(cfg, a)[..n + 1];
    RemovalIsTheLastWrite(cfg, a, n, job);
    assert Trail(log[..q], run) == Writes(cfg, a)[..n];
  }

  lemma {:induction false} GoneMeansDeleted(store: Store, log: seq<Event>, n: nat, key: string) returns (q: nat)
    requires n <= |log| && key in Replay(store, log[..n]) && key !in Replay(store, log)
    ensures n <= q < |log| && log[q] == Delete(key)
  {
    assert n != |log| by {
      assert log[..|log|] == log;
    }
    var last := |log| - 1;
    if key in Replay(store, log[..last]) {
      q := last;
    } else {
      assert log[..last][..n] == log[..n];
      q := GoneMeansDeleted(store, log[..last], n, key);
    }
  }

  /** Over every run, through any crashes: a job that was assigned at some moment, and that no client has
      unassigned since, is still assigned, or a run of it had recorded done or fail before its key was removed. */
  lemma AssignedUntilVerdict(cfg: Config, initial: Store, steps: seq<Step>, t: State, n: nat, job: string)
    requires After(cfg, Boot(cfg, initial, [], 0), steps) == Some(t) && n <= |t.log|
    requires AssignKey(cfg.server, job) in Replay(initial, Events(t.log[..n]))
    requires forall q | n <= q < |t.log| :: t.log[q] != Entry(Delete(AssignKey(cfg.server, job)), Client)
    ensures AssignKey(cfg.server, job) in t.store ||
            exists q :: n <= q < |t.log| && t.log[q].event == Delete(AssignKey(cfg.server, job)) &&
                        HasVerdict(cfg, t.log[..q], job)
  {
    FirstBoot(cfg, initial);
    RunsKeepHistory(cfg, initial, Boot(cfg, initial, [], 0), steps, t);
    if AssignKey(cfg.server, job) !in t.store {
      assert Events(t.log)[..n] == Events(t.log[..n]);
      var q := GoneMeansDeleted(initial, Events(t.log), n, AssignKey(cfg.server, job));
      RemovedAfterVerdict(cfg, t.log, t.runs, q, job);
    }
  }

  // ---- What a running server has not forgotten

  ghost predicate Holds(workers: seq<Worker>, job: string) {
    exists i :: 0 <= i < |workers| && HasJob(workers[i], job)
  }

  predicate HasJob(w: Worker, job: string) {
    (w.Taken? && w.job == job) || (w.At? && w.attempt.job == job)
  }

  ghost predicate Covered(cfg: Config, s: State, job: string)
    requires forall e | e in s.feed.pending :: AssignDir(cfg.server) <= e.key
  {
    || JobFeed.InFlight(cfg.server, s.feed, job)
    || Holds(s.workers, job)
    || job in s.missed || job in s.dropped
  }

  /** Once the listing is made, every assigned job is on its way, in a worker's hands, or was missed in the gap
      before the watch, or was dropped; and a job counts as missed or dropped only while it stays assigned. */
  ghost predicate CoverInv(cfg: Config, s: State) {
    && |s.workers| == cfg.slots
    && JobFeed.FeedInv(cfg.server, cfg.slots, s.feed)
    && s.missed + s.dropped <= DirJobs(cfg.server, s.store)
    && (s.feed.listing.Some? ==>
          forall job | AssignKey(cfg.server, job) in s.store :: Covered(cfg, s, job))
  }

  lemma WriteCovers(cfg: Config, s: State, e: Event, actor: Actor, job: string)
    requires CoverInv(cfg, s) && s.feed.listing.Some?
    requires var t := Write(cfg, s, e, actor);
             (forall d | d in t.feed.pending :: AssignDir(cfg.server) <= d.key) && AssignKey(cfg.server, job) in t.store
    ensures Covered(cfg, Write(cfg, s, e, actor), job)
  {
    JobFeed.ObserveKeepsInFlight(cfg.server, cfg.slots, s.feed, e, job);
    JobOfAssignKey(cfg.server, job);
    if AssignDir(cfg.server) <= e.key {
      AssignKeyRoundTrip(cfg.server, e.key);
    }
  }

  lemma WriteKeepsCover(cfg: Config, s: State, e: Event, actor: Actor)
    requires CoverInv(cfg, s)
    ensures CoverInv(cfg, Write(cfg, s, e, actor))
  {
    var t := Write(cfg, s, e, actor);
    JobFeed.ObserveKeeps(cfg.server, cfg.slots, s.feed, e);
    DirJobsAfter(cfg.server, s.store, e);
    forall job | t.feed.listing.Some? && AssignKey(cfg.server, job) in t.store
      ensures Covered(cfg, t, job)
    {
      WriteCovers(cfg, s, e, actor, job);
    }
  }

  lemma HoldsAfter(workers: seq<Worker>, i: nat, w: Worker, job: string)
    requires i < |workers| && (HasJob(workers[i], job) ==> HasJob(w, job))
    ensures Holds(workers, job) ==> Holds(workers[i := w], job)
  {
    if k :| 0 <= k < |workers| && HasJob(workers[k], job) {
      assert HasJob(workers[i := w][k], job);
    }
  }

  /** A worker goes on with its job. */
  lemma WorkerKeepsCover(cfg: Config, s: State, i: nat, w: Worker, runs: nat)
    requires CoverInv(cfg, s) && i < |s.workers|
    requires forall job | HasJob(s.workers[i], job) :: HasJob(w, job)
    ensures CoverInv(cfg, s.(workers := s.workers[i := w], runs := runs))
  {
    var t := s.(workers := s.workers[i := w], runs := runs);
    forall job | s.feed.listing.Some? && AssignKey(cfg.server, job) in s.store
      ensures Covered(cfg, t, job)
    {
      assert Covered(cfg, s, job);
      HoldsAfter(s.workers, i, w, job);
    }
  }

  lemma FeedKeepsCover(cfg: Config, s: State, step: Step)
    requires CoverInv(cfg, s) && Enabled(cfg, s, step)
    requires step.SendListed? || step.Receive? || step.SendWatched?
    ensures CoverInv(cfg, Do(cfg, s, step))
  {
    var t := Do(cfg, s, step);
    match step {
      case SendListed => JobFeed.SendListedKeeps(cfg.server, cfg.slots, s.feed);
      case Receive => JobFeed.ReceiveKeeps(cfg.server, cfg.slots, s.feed);
      case SendWatched => JobFeed.SendWatchedKeeps(cfg.server, cfg.slots, s.feed);
    }
    forall job | s.feed.listing.Some? && AssignKey(cfg.server, job) in t.store
      ensures Covered(cfg, t, job)
    {
      assert Covered(cfg, s, job);
      if JobFeed.InFlight(cfg.server, s.feed, job) {
        JobFeed.MovingKeepsInFlight(cfg.server, cfg.slots, s.feed, job);
      }
    }
  }

  lemma ListingKeepsCover(cfg: Config, s: State, jobs: seq<string>)
    requires CoverInv(cfg, s) && Enabled(cfg, s, ListJobs(jobs))
    ensures CoverInv(cfg, Do(cfg, s, ListJobs(jobs)))
  {
    var t := Do(cfg, s, ListJobs(jobs));
    JobFeed.ListKeeps(cfg.server, cfg.slots, s.feed, jobs);
    forall job | AssignKey(cfg.server, job) in t.store
      ensures Covered(cfg, t, job)
    {
      DirJobsAreKeys(cfg.server, s.store, job);
      assert job in jobs;
    }
  }

  lemma TakeKeepsCover(cfg: Config, s: State, i: nat)
    requires CoverInv(cfg, s) && Enabled(cfg, s, Take(i))
    ensures CoverInv(cfg, Do(cfg, s, Take(i)))
  {
    var t, w := Do(cfg, s, Take(i)), Taken(s.feed.queue[0]);
    JobFeed.TakeKeeps(cfg.server, cfg.slots, s.feed);
    forall job | s.feed.listing.Some? && AssignKey(cfg.server, job) in t.store
      ensures Covered(cfg, t, job)
    {
      assert Covered(cfg, s, job);
      HoldsAfter(s.workers, i, w, job);
      assert HasJob(t.workers[i], w.job);
      if JobFeed.InFlight(cfg.server, s.feed, job) {
        JobFeed.TakeKeepsInFlight(cfg.server, cfg.slots, s.feed, job);
      }
    }
  }

  /** A worker lets go of a job that is no longer assigned, or that it drops. */
  lemma ReleaseKeepsCover(cfg: Config, s: State, i: nat, dropped: set<string>)
    requires CoverInv(cfg, s) && i < |s.workers| && s.dropped <= dropped <= DirJobs(cfg.server, s.store)
    requires forall job | HasJob(s.workers[i], job) && AssignKey(cfg.server, job) in s.store :: job in dropped
    ensures CoverInv(cfg, s.(workers := s.workers[i := Idle], dropped := dropped))
  {
    var t := s.(workers := s.workers[i := Idle], dropped := dropped);
    forall job | s.feed.listing.Some? && AssignKey(cfg.server, job) in s.store
      ensures Covered(cfg, t, job)
    {
      assert Covered(cfg, s, job);
      if !HasJob(s.workers[i], job) {
        HoldsAfter(s.workers, i, Idle, job);
      }
    }
  }

  lemma FetchKeepsCover(cfg: Config, s: State, i: nat)
    requires CoverInv(cfg, s) && Enabled(cfg, s, Fetch(i))
    ensures CoverInv(cfg, Do(cfg, s, Fetch(i)))
  {
    var job := s.workers[i].job;
    if JobKey(job) in s.store && cfg.runnable(s.store[JobKey(job)]) {
      WorkerKeepsCover(cfg, s, i, At(Fetched, s.runs, Attempt(job, false, "", false)), s.runs + 1);
    } else {
      DirJobsAreKeys(cfg.server, s.store, job);
      ReleaseKeepsCover(cfg, s, i,
        if AssignKey(cfg.server, job) in s.store then s.dropped + {job} else s.dropped);
    }
  }

  lemma WriteIgnoresWorkers(cfg: Config, s: State, workers: seq<Worker>, e: Event, actor: Actor)
    ensures Write(cfg, s.(workers := workers), e, actor) == Write(cfg, s, e, actor).(workers := workers)
  {
  }

  /** Removing the key and letting go of the job commute: the key goes first in this argument. */
  lemma RemoveKeepsCover(cfg: Config, s: State, i: nat)
    requires CoverInv(cfg, s) && Enabled(cfg, s, Remove(i))
    ensures CoverInv(cfg, Do(cfg, s, Remove(i)))
  {
    var job := s.workers[i].attempt.job;
    var e := Delete(AssignKey(cfg.server, job));
    var mid := Write(cfg, s, e, Run(s.workers[i].run));
    WriteKeepsCover(cfg, s, e, Run(s.workers[i].run));
    ReleaseKeepsCover(cfg, mid, i, mid.dropped);
    WriteIgnoresWorkers(cfg, s, s.workers[i := Idle], e, Run(s.workers[i].run));
  }

  lemma AdvanceKeepsCover(cfg: Config, s: State, i: nat, w: Worker, e: Event, actor: Actor)
    requires CoverInv(cfg, s) && i < |s.workers| && s.workers[i].At? && w.At?
    requires w.attempt.job == s.workers[i].attempt.job
    ensures CoverInv(cfg, Write(cfg, s.(workers := s.workers[i := w]), e, actor))
  {
    WorkerKeepsCover(cfg, s, i, w, s.runs);
    WriteKeepsCover(cfg, s.(workers := s.workers[i := w]), e, actor);
  }

  /** The writes of a run in progress. */
  lemma RunKeepsCover(cfg: Config, s: State, i: nat, step: Step)
    requires CoverInv(cfg, s) && Enabled(cfg, s, step)
    requires step == Mark(i) || step == Print(i) || step == Judge(i)
    ensures CoverInv(cfg, Do(cfg, s, step))
  {
    var w := s.workers[i];
    match step {
      case Mark(_) =>
        AdvanceKeepsCover(cfg, s, i, w.(phase := Marked), Put(StateKey(w.attempt.job), RUNNING), Run(w.run));
      case Print(_) =>
        AdvanceKeepsCover(cfg, s, i, w.(phase := Printed), Put(OutputKey(w.attempt.job), w.attempt.output), Run(w.run));
      case Judge(_) =>
        var e := Put(StateKey(w.attempt.job), Verdict(w.attempt.ok));
        AdvanceKeepsCover(cfg, s, i, w.(phase := Judged), e, Run(w.run));
    }
  }

  lemma ClearKeepsCover(cfg: Config, s: State, i: nat)
    requires CoverInv(cfg, s) && Enabled(cfg, s, Clear(i))
    ensures CoverInv(cfg, Do(cfg, s, Clear(i)))
  {
    var e := Delete(OutputKey(s.workers[i].attempt.job));
    var w := s.workers[i].(attempt := s.workers[i].attempt.(cleared := Emits(s.store, e)));
    WorkerKeepsCover(cfg, s, i, w, s.runs);
    AdvanceKeepsCover(cfg, s.(workers := s.workers[i := w]), i, w.(phase := Cleared), e, Run(w.run));
  }

  lemma ExecuteKeepsCover(cfg: Config, s: State, i: nat, output: string, ok: bool)
    requires CoverInv(cfg, s) && Enabled(cfg, s, Execute(i, output, ok))
    ensures CoverInv(cfg, Do(cfg, s, Execute(i, output, ok)))
  {
    var w := s.workers[i];
    WorkerKeepsCover(cfg, s, i, At(Exited, w.run, w.attempt.(output := output, ok := ok)), s.runs);
  }

  lemma RestartKeepsCover(cfg: Config, s: State, step: Step)
    requires CoverInv(cfg, s) && Enabled(cfg, s, step) && (step.OpenWatch? || step.Crash?)
    ensures CoverInv(cfg, Do(cfg, s, step))
  {
    JobFeed.OpenKeeps(cfg.server, cfg.slots, s.feed);
    if step.OpenWatch? {
      OpeningKeepsCover(cfg, s);
    }
  }

  lemma OpeningKeepsCover(cfg: Config, s: State)
    requires CoverInv(cfg, s) && JobFeed.FeedInv(cfg.server, cfg.slots, s.feed.(watching := true))
    ensures CoverInv(cfg, s.(feed := s.feed.(watching := true)))
  {
    var t := s.(feed := s.feed.(watching := true));
    forall job | s.feed.listing.Some? && AssignKey(cfg.server, job) in s.store
      ensures Covered(cfg, t, job)
    {
      assert Covered(cfg, s, job);
    }
  }

  lemma StepKeepsCover(cfg: Config, s: State, step: Step)
    requires CoverInv(cfg, s) && Enabled(cfg, s, step)
    ensures CoverInv(cfg, Do(cfg, s, step))
  {
    match step {
      case ClientWrite(e) => WriteKeepsCover(cfg, s, e, Client);
      case OpenWatch => RestartKeepsCover(cfg, s, step);
      case ListJobs(jobs) => ListingKeepsCover(cfg, s, jobs);
      case Take(i) => TakeKeepsCover(cfg, s, i);
      case Fetch(i) => FetchKeepsCover(cfg, s, i);
      case Clear(i) => ClearKeepsCover(cfg, s, i);
      case Mark(i) => RunKeepsCover(cfg, s, i, step);
      case Execute(i, output, ok) => ExecuteKeepsCover(cfg, s, i, output, ok);
      case Print(i) => RunKeepsCover(cfg, s, i, step);
      case Judge(i) => RunKeepsCover(cfg, s, i, step);
      case Remove(i) => RemoveKeepsCover(cfg, s, i);
      case Crash => RestartKeepsCover(cfg, s, step);
      case _ => FeedKeepsCover(cfg, s, step);
    }
  }

  lemma {:induction false} RunsKeepCover(cfg: Config, s: State, steps: seq<Step>, t: State)
    requires CoverInv(cfg, s) && After(cfg, s, steps) == Some(t)
    ensures CoverInv(cfg, t)
    decreases |steps|
  {
    if steps != [] {
      StepKeepsCover(cfg, s, steps[0]);
      RunsKeepCover(cfg, Do(cfg, s, steps[0]), steps[1..], t);
    }
  }

  lemma ReachedIsCovered(cfg: Config, initial: Store, steps: seq<Step>, t: State)
    requires After(cfg, Boot(cfg, initial, [], 0), steps) == Some(t)
    ensures CoverInv(cfg, t)
  {
    RunsKeepCover(cfg, Boot(cfg, initial, [], 0), steps, t);
  }

  predicate AtRest(s: State) {
    && s.feed.watching && s.feed.listing.Some? && s.feed.unsent == []
    && s.feed.pending == [] && s.feed.hand.None? && s.feed.queue == []
    && forall w | w in s.workers :: w.Idle?
  }

  /** What a server at rest has left undone, exactly: the jobs assigned between its listing and its watch, and
      those whose node held nothing to run. */
  lemma LeftUndone(cfg: Config, initial: Store, steps: seq<Step>, t: State)
    requires After(cfg, Boot(cfg, initial, [], 0), steps) == Some(t) && AtRest(t)
    ensures DirJobs(cfg.server, t.store) == t.missed + t.dropped
  {
    ReachedIsCovered(cfg, initial, steps, t);
    RestLeaves(cfg, t);
  }

  lemma RestLeaves(cfg: Config, t: State)
    requires CoverInv(cfg, t) && AtRest(t)
    ensures DirJobs(cfg.server, t.store) == t.missed + t.dropped
  {
    forall job | job in DirJobs(cfg.server, t.store)
      ensures job in t.missed + t.dropped
    {
      DirJobsAreKeys(cfg.server, t.store, job);
      assert Covered(cfg, t, job) && !JobFeed.InFlight(cfg.server, t.feed, job);
      assert forall k | 0 <= k < |t.workers| :: t.workers[k] in t.workers;
      assert !Holds(t.workers, job);
    }
  }

  /** The gap is real: listing first, then an assignment, then the watch leaves the job behind for good. */
  lemma AssignmentCanBeMissed(cfg: Config, job: string)
    ensures var assign := ClientWrite(Put(AssignKey(cfg.server, job), ""));
            var end := After(cfg, Boot(cfg, map[], [], 0), [ListJobs([]), assign, OpenWatch]);
            end.Some? && AtRest(end.value) && AssignKey(cfg.server, job) in end.value.store
  {
    var assign := ClientWrite(Put(AssignKey(cfg.server, job), ""));
    var s0 := Boot(cfg, map[], [], 0);
    var none: seq<string> := [];
    assert (set j | j in none) == DirJobs(cfg.server, s0.store);
    AfterThree(cfg, s0, ListJobs([]), assign, OpenWatch);
  }

  lemma AfterThree(cfg: Config, s: State, a: Step, b: Step, c: Step)
    requires Enabled(cfg, s, a) && Enabled(cfg, Do(cfg, s, a), b) && Enabled(cfg, Do(cfg, Do(cfg, s, a), b), c)
    ensures After(cfg, s, [a, b, c]) == Some(Do(cfg, Do(cfg, Do(cfg, s, a), b), c))
  {
    var s1 := Do(cfg, s, a);
    var s2 := Do(cfg, s1, b);
    var s3 := Do(cfg, s2, c);
    assert [a, b, c][1..] == [b, c] && [b, c][1..] == [c] && [c][1..] == [];
    assert After(cfg, s3, []) == Some(s3);
    assert After(cfg, s2, [c]) == Some(s3);
    assert After(cfg, s1, [b, c]) == Some(s3);
  }
}
