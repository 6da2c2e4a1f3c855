/** Left alone by its clients, the slot server empties its assign directory: no step order can block it and
    none can go on for ever. */
module SlotDraining {
  import opened Etcd
  import opened SlotServer
  import JobFeed

  predicate IsServerStep(step: Step) {
    !step.Client? && !step.Crash?
  }

  predicate Quiescent(s: State) {
    && s.feed.listing.Some? && s.feed.unsent == []
    && s.feed.pending == [] && s.feed.hand.None? && s.feed.queue == []
    && forall w | w in s.workers :: w.Idle?
  }

  // ---- The work that is left

  function WorkerCost(w: Worker): nat {
    match w
    case Idle => 0
    case Recorded(_) => 2
    case Ran(_, _) => 3
    case Assigned(_) => 4
  }

  function WorkersCost(workers: seq<Worker>): nat {
    JobFeed.Sum(Costs(workers))
  }

  function Costs(workers: seq<Worker>): seq<nat> {
    seq(|workers|, i requires 0 <= i < |workers| => WorkerCost(workers[i]))
  }

  /** The number of server steps still possible, at most.  A job costs less the further it has come; the
      delete event that a worker's own delete will emit is paid for in advance. */
  function Cost(cfg: Config, s: State): nat {
    (if s.feed.listing.Some? then 0 else (if s.feed.watching then 1 else 2) + 6 * |DirJobs(cfg.server, s.store)|)
    + 6 * |s.feed.unsent| + JobFeed.PendingCost(s.feed.pending, 7) + (if s.feed.hand.Some? then 6 else 0)
    + 5 * |s.feed.queue| + WorkersCost(s.workers)
  }

  lemma WorkersCostAfter(workers: seq<Worker>, i: nat, w: Worker)
    requires i < |workers|
    ensures WorkersCost(workers[i := w]) + WorkerCost(workers[i]) == WorkersCost(workers) + WorkerCost(w)
  {
    JobFeed.SumAfter(Costs(workers), i, WorkerCost(w));
    assert Costs(workers[i := w]) == Costs(workers)[i := WorkerCost(w)];
  }

  lemma RecordCosts(cfg: Config, s: State, i: nat)
    requires Enabled(cfg, s, Record(i))
    ensures Cost(cfg, Do(cfg, s, Record(i))) < Cost(cfg, s)
  {
    var job, outcome := s.workers[i].job, s.workers[i].outcome;
    WorkersCostAfter(s.workers, i, Recorded(job));
    match ReadJob(cfg, s.store, job)
    case Some(record) =>
      RecordingIsElsewhere(cfg, s.(workers := s.workers[i := Recorded(job)]), job, cfg.write(Judged(record, outcome)));
    case None =>
  }

  /** Rewriting a job node leaves the assign directory and its watch alone. */
  lemma RecordingIsElsewhere(cfg: Config, s: State, job: string, value: string)
    ensures var t := Write(cfg, s, Put(JobKey(job), value));
      && t == s.(store := t.store) && DirJobs(cfg.server, t.store) == DirJobs(cfg.server, s.store)
  {
    JobKeysAreNotAssigned(cfg.server, job, "");
    assert JobKey(job) + "" == JobKey(job);
    DirJobsAfter(cfg.server, s.store, Put(JobKey(job), value));
  }

  lemma RemoveCosts(cfg: Config, s: State, i: nat)
    requires Enabled(cfg, s, Remove(i))
    ensures Cost(cfg, Do(cfg, s, Remove(i))) < Cost(cfg, s)
  {
    var e := Delete(AssignKey(cfg.server, s.workers[i].job));
    WorkersCostAfter(s.workers, i, Idle);
    JobFeed.PendingCostAppend(s.feed.pending, e, 7);
    JobOfAssignKey(cfg.server, s.workers[i].job);
    DirJobsAfter(cfg.server, s.store, e);
    JobFeed.Shrinks(DirJobs(cfg.server, s.store), s.workers[i].job);
  }

  /** Every server step leaves less work. */
  lemma StepCosts(cfg: Config, s: State, step: Step)
    requires Enabled(cfg, s, step) && IsServerStep(step)
    requires s.feed.listing.None? ==> s.feed.unsent == []
    requires s.feed.listing.Some? ==> s.feed.watching
    ensures Cost(cfg, Do(cfg, s, step)) < Cost(cfg, s)
  {
    match step {
      case ListJobs(jobs) => JobFeed.DistinctCount(jobs, DirJobs(cfg.server, s.store));
      case Take(i) => WorkersCostAfter(s.workers, i, Assigned(s.feed.queue[0]));
      case Run(i, outcome) => WorkersCostAfter(s.workers, i, Ran(s.workers[i].job, outcome));
      case Record(i) => RecordCosts(cfg, s, i);
      case Remove(i) => RemoveCosts(cfg, s, i);
      case _ =>
    }
  }

  /** Deadlock freedom: with at least one slot, a server that is not quiescent can take a step. */
  lemma SomeStepIsEnabled(cfg: Config, s: State) returns (step: Step)
    requires Inv(cfg, s) && cfg.slots >= 1 && !Quiescent(s)
    ensures IsServerStep(step) && Enabled(cfg, s, step)
  {
    if i :| 0 <= i < |s.workers| && !s.workers[i].Idle? {
      match s.workers[i] {
        case Assigned(_) => step := Run(i, Failed(""));
        case Ran(_, _) => step := Record(i);
        case Recorded(_) => step := Remove(i);
      }
    } else if s.feed.queue != [] {
      assert s.workers[0].Idle?;
      step := Take(0);
    } else if s.feed.hand.Some? {
      step := SendWatched;
    } else if s.feed.pending != [] {
      step := Receive;
    } else if s.feed.unsent != [] {
      step := SendListed;
    } else if !s.feed.watching {
      step := OpenWatch;
    } else {
      var jobs := JobFeed.SomeListing(DirJobs(cfg.server, s.store));
      step := ListJobs(jobs);
    }
  }

  lemma QuiescentIsEmpty(cfg: Config, s: State)
    requires Inv(cfg, s) && Quiescent(s)
    ensures DirJobs(cfg.server, s.store) == {}
  {
    forall job
      ensures job !in DirJobs(cfg.server, s.store)
    {
      DirJobsAreKeys(cfg.server, s.store, job);
    }
  }

  lemma {:induction false} RunsCost(cfg: Config, s: State, steps: seq<Step>, t: State)
    requires Inv(cfg, s) && After(cfg, s, steps) == Some(t)
    requires forall step | step in steps :: IsServerStep(step)
    ensures Inv(cfg, t) && |steps| + Cost(cfg, t) <= Cost(cfg, s)
    decreases |steps|
  {
    if steps != [] {
      var next := Do(cfg, s, steps[0]);
      if s.feed.listing.None? {
        JobFeed.UnlistedSendsNothing(cfg.server, cfg.slots, s.feed);
      }
      StepCosts(cfg, s, steps[0]);
      StepKeeps(cfg, s, steps[0]);
      RunsCost(cfg, next, steps[1..], t);
    }
  }

  /** Draining, whatever the schedule: take any reachable state, after any client writes and crashes.  From
      there the server takes at most Cost more steps, and where it can take none, its assign directory is empty
      and it is at rest. */
  lemma EveryScheduleDrains(cfg: Config, store: Store, before: seq<Step>, s: State, steps: seq<Step>, t: State)
    requires After(cfg, Start(cfg, store), before) == Some(s)
    requires After(cfg, s, steps) == Some(t)
    requires forall step | step in steps :: IsServerStep(step)
    ensures |steps| <= Cost(cfg, s)
    ensures cfg.slots >= 1 && (forall step | IsServerStep(step) :: !Enabled(cfg, t, step)) ==>
      Quiescent(t) && DirJobs(cfg.server, t.store) == {}
  {
    StartKeeps(cfg, store);
    RunsKeep(cfg, Start(cfg, store), before, s);
    RunsCost(cfg, s, steps, t);
    if cfg.slots >= 1 && (forall step | IsServerStep(step) :: !Enabled(cfg, t, step)) {
      if !Quiescent(t) {
        var step := SomeStepIsEnabled(cfg, t);
        assert false;
      }
      QuiescentIsEmpty(cfg, t);
    }
  }

  lemma {:induction false} CanDrain(cfg: Config, s: State) returns (steps: seq<Step>, t: State)
    requires Inv(cfg, s) && cfg.slots >= 1
    ensures After(cfg, s, steps) == Some(t) && forall step | step in steps :: IsServerStep(step)
    ensures Quiescent(t) && DirJobs(cfg.server, t.store) == {}
    decreases Cost(cfg, s)
  {
    if Quiescent(s) {
      QuiescentIsEmpty(cfg, s);
      steps, t := [], s;
    } else {
      var step := SomeStepIsEnabled(cfg, s);
      if s.feed.listing.None? {
        JobFeed.UnlistedSendsNothing(cfg.server, cfg.slots, s.feed);
      }
      StepCosts(cfg, s, step);
      StepKeeps(cfg, s, step);
      var rest;
      rest, t := CanDrain(cfg, Do(cfg, s, step));
      steps := OneMore(cfg, s, step, rest, t);
    }
  }

  lemma OneMore(cfg: Config, s: State, step: Step, rest: seq<Step>, t: State) returns (steps: seq<Step>)
    requires Enabled(cfg, s, step) && IsServerStep(step) && After(cfg, Do(cfg, s, step), rest) == Some(t)
    requires forall later | later in rest :: IsServerStep(later)
    ensures After(cfg, s, steps) == Some(t) && forall each | each in steps :: IsServerStep(each)
  {
    steps := [step] + rest;
    assert steps[1..] == rest;
  }

  lemma WithoutSlotsNothingIsWritten(cfg: Config, s: State, step: Step)
    requires |s.workers| == 0 && IsServerStep(step) && Enabled(cfg, s, step)
    ensures Do(cfg, s, step).store == s.store
  {
  }

  lemma {:induction false} WithoutSlotsNothingHappens(cfg: Config, s: State, steps: seq<Step>, t: State)
    requires Inv(cfg, s) && cfg.slots == 0 && After(cfg, s, steps) == Some(t)
    requires forall step | step in steps :: IsServerStep(step)
    ensures t.store == s.store
    decreases |steps|
  {
    if steps != [] {
      StepKeeps(cfg, s, steps[0]);
      WithoutSlotsNothingIsWritten(cfg, s, steps[0]);
      WithoutSlotsNothingHappens(cfg, Do(cfg, s, steps[0]), steps[1..], t);
    }
  }

  /** Exactly when an assigned job can be worked off: the server needs a slot.  A slot count of 0 is accepted
      at start-up, but then no step of the server ever touches the store. */
  lemma DrainsIffThereIsASlot(cfg: Config, s: State)
    requires Inv(cfg, s) && DirJobs(cfg.server, s.store) != {}
    ensures cfg.slots >= 1 <==>
      exists steps: seq<Step> ::
        && (forall step | step in steps :: IsServerStep(step))
        && After(cfg, s, steps).Some?
        && DirJobs(cfg.server, After(cfg, s, steps).value.store) == {}
  {
    if cfg.slots >= 1 {
      var steps, t := CanDrain(cfg, s);
      assert After(cfg, s, steps).Some?;
    } else {
      forall steps: seq<Step> | (forall step | step in steps :: IsServerStep(step)) && After(cfg, s, steps).Some?
        ensures DirJobs(cfg.server, After(cfg, s, steps).value.store) != {}
      {
        WithoutSlotsNothingHappens(cfg, s, steps, After(cfg, s, steps).value);
      }
    }
  }

  // ---- Each job once

  /** A server left alone since its start: nothing comes from the watch, and what it has listed is what was assigned
      at the start. */
  ghost predicate Alone(cfg: Config, start: Store, s: State) {
    && (forall e | e in s.feed.events :: AssignDir(cfg.server) <= e.key)
    && JobFeed.PutJobs(cfg.server, s.feed.events) == []
    && (s.feed.listing.Some? ==> JobFeed.IsListing(cfg.server, start, s.feed.listing.value))
    && (s.feed.listing.None? ==> s == Start(cfg, start).(feed := s.feed) && IsSilent(s.feed))
  }

  predicate IsSilent(f: JobFeed.Feed) {
    f.unsent == [] && f.pending == [] && f.hand.None? && f.queue == []
  }

  /** A write of the server's own that does not assign a job. */
  lemma WriteStaysAlone(cfg: Config, start: Store, s: State, e: Event)
    requires Alone(cfg, start, s) && s.feed.listing.Some?
    requires AssignDir(cfg.server) <= e.key ==> e.Delete?
    ensures Alone(cfg, start, Write(cfg, s, e))
  {
    if AssignDir(cfg.server) <= e.key {
      JobFeed.PutJobsAppend(cfg.server, s.feed.events, e);
    }
  }

  lemma RecordStaysAlone(cfg: Config, start: Store, s: State, i: nat)
    requires Alone(cfg, start, s) && Enabled(cfg, s, Record(i))
    ensures Alone(cfg, start, Do(cfg, s, Record(i)))
  {
    var job, outcome := s.workers[i].job, s.workers[i].outcome;
    var after := s.(workers := s.workers[i := Recorded(job)]);
    JobKeysAreNotAssigned(cfg.server, job, "");
    assert JobKey(job) + "" == JobKey(job);
    match ReadJob(cfg, s.store, job)
    case Some(record) => WriteStaysAlone(cfg, start, after, Put(JobKey(job), cfg.write(Judged(record, outcome))));
    case None =>
  }

  lemma StepStaysAlone(cfg: Config, start: Store, s: State, step: Step)
    requires Alone(cfg, start, s) && Enabled(cfg, s, step) && IsServerStep(step)
    ensures Alone(cfg, start, Do(cfg, s, step))
  {
    match step {
      case Record(i) => RecordStaysAlone(cfg, start, s, i);
      case Remove(i) =>
        var job := s.workers[i].job;
        var t := s.(workers := s.workers[i := Idle], finished := s.finished + [job]);
        WriteStaysAlone(cfg, start, t, Delete(AssignKey(cfg.server, job)));
      case _ =>
    }
  }

  lemma {:induction false} RunsStayAlone(cfg: Config, start: Store, s: State, steps: seq<Step>, t: State)
    requires Alone(cfg, start, s) && After(cfg, s, steps) == Some(t)
    requires forall step | step in steps :: IsServerStep(step)
    ensures Alone(cfg, start, t)
    decreases |steps|
  {
    if steps != [] {
      StepStaysAlone(cfg, start, s, steps[0]);
      RunsStayAlone(cfg, start, Do(cfg, s, steps[0]), steps[1..], t);
    }
  }

  /** A server that is left alone from its start until it comes to rest has handled each job that was assigned exactly
      once, and no other. */
  lemma EachJobIsHandledOnce(cfg: Config, store: Store, steps: seq<Step>, t: State)
    requires After(cfg, Start(cfg, store), steps) == Some(t) && Quiescent(t)
    requires forall step | step in steps :: IsServerStep(step)
    ensures multiset(t.finished) == multiset(DirJobs(cfg.server, store))
  {
    ListedAreFinished(cfg, store, steps, t);
    OnceEach(t.feed.listing.value, DirJobs(cfg.server, store));
  }

  lemma ListedAreFinished(cfg: Config, store: Store, steps: seq<Step>, t: State)
    requires After(cfg, Start(cfg, store), steps) == Some(t) && Quiescent(t)
    requires forall step | step in steps :: IsServerStep(step)
    ensures JobFeed.IsListing(cfg.server, store, t.feed.listing.value)
    ensures multiset(t.finished) == multiset(t.feed.listing.value)
  {
    JobsAreConserved(cfg, store, steps, t);
    StartsAlone(cfg, store);
    RunsStayAlone(cfg, store, Start(cfg, store), steps, t);
    NothingHeld(t.workers);
    NoOthers(t.feed.listing.value, t.finished);
  }

  lemma StartsAlone(cfg: Config, store: Store)
    ensures Alone(cfg, store, Start(cfg, store))
  {
  }

  lemma NoOthers(listed: seq<string>, finished: seq<string>)
    requires var none: seq<string> := [];
      multiset(listed) + multiset(none) == multiset(none) + multiset(none) + multiset(none) + multiset(none)
                                           + (multiset{} + multiset(finished))
    ensures multiset(finished) == multiset(listed)
  {
    var none: seq<string> := [];
    assert multiset(listed) + multiset(none) == multiset(listed);
    assert multiset(none) + multiset(none) + multiset(none) + multiset(none) + (multiset{} + multiset(finished))
        == multiset(finished);
  }

  lemma {:induction false} OnceEach(jobs: seq<string>, all: set<string>)
    requires JobFeed.Distinct(jobs) && (set job | job in jobs) == all
    ensures multiset(jobs) == multiset(all)
  {
    if jobs != [] {
      var front, last := jobs[..|jobs| - 1], jobs[|jobs| - 1];
      OnceEach(front, set job | job in front);
      assert jobs == front + [last];
      assert all == (set job | job in front) + {last};
    }
  }
}
