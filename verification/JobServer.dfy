/** The older server as the object whose goroutines update it.  Each method is what one goroutine does between
    two store operations; each is a step of the state machine in JobRunner. */
module JobServer {
  import opened Etcd
  import opened JobDraining
  import opened JobRecovery
  import opened JobRunner
  import JobFeed

  class Server {
    const name: string
    const parallelCount: nat
    const runnable: string -> bool

    var store: Store
    var watching: bool
    var pending: seq<Event>
    var hand: Option<string>
    var listing: Option<seq<string>>
    var unsent: seq<string>
    var jobChan: seq<string>
    var workers: seq<Worker>

    ghost var events: seq<Event>
    ghost var sent: seq<JobFeed.Sending>
    ghost var taken: seq<string>
    ghost var log: seq<Entry>
    var runs: nat  // numbers the runs, so that the history can tell them apart
    ghost var missed: set<string>
    ghost var dropped: set<string>

    ghost function Cfg(): Config { Config(name, parallelCount, runnable) }

    ghost function View(): State
      reads this
    {
      State(store, JobFeed.Feed(watching, listing, unsent, pending, hand, jobChan, events, sent, taken),
            workers, log, runs, missed, dropped)
    }

    /** A process starting, for the first time or again: only the store is left of an earlier one. */
    constructor (name: string, parallelCount: nat, runnable: string -> bool, store: Store, ghost log: seq<Entry>,
                 runs: nat)
      ensures this.name == name && this.parallelCount == parallelCount && this.runnable == runnable
      ensures View() == Boot(Cfg(), store, log, runs)
    {
      this.name, this.parallelCount, this.runnable := name, parallelCount, runnable;
      this.store, this.log, this.runs := store, log, runs;
      watching, pending, hand, listing, unsent, jobChan := false, [], None, None, [], [];
      workers := seq(parallelCount, _ => Idle);
      events, sent, taken, missed, dropped := [], [], [], {}, {};
    }

    /** The watch, if it is open, emits what concerns the assign directory. */
    method Emit(e: Event)
      modifies this`pending, this`events
      ensures View() == old(View()).(feed := JobFeed.Observe(name, old(View()).feed, e))
    {
      if watching && AssignDir(name) <= e.key {
        pending, events := pending + [e], events + [e];
      }
    }

    /** A put or delete by anyone. */
    method Write(e: Event, ghost actor: Actor)
      modifies this`store, this`pending, this`events, this`log, this`missed, this`dropped
      ensures View() == JobRunner.Write(Cfg(), old(View()), e, actor)
    {
      if e.Put? || e.key in store {
        missed, dropped := MissedAfter(Cfg(), View(), e), DroppedAfter(Cfg(), View(), e);
        store, log := Apply(store, e), log + [Entry(e, actor)];
        Emit(e);
      }
    }

    /** The start of ListenNewJobAssigned's goroutine. */
    method Watch()
      requires Enabled(Cfg(), View(), OpenWatch)
      modifies this`watching
      ensures View() == Do(Cfg(), old(View()), OpenWatch)
    {
      watching := true;
    }

    /** RunJobsAssigned: the jobs behind the keys of the assign directory, for a goroutine to send. */
    method ListAssigned() returns (jobs: seq<string>)
      requires listing.None?
      modifies this`listing, this`unsent
      ensures Enabled(Cfg(), old(View()), ListJobs(jobs))
      ensures View() == Do(Cfg(), old(View()), ListJobs(jobs))
    {
      var prefix := AssignDir(name);
      var kvs := set k | k in store && prefix <= k;
      jobs := [];
      while kvs != {}
        invariant JobFeed.Slicing(name, store, kvs, jobs)
        decreases kvs
      {
        var k :| k in kvs;
        JobFeed.SliceNext(name, store, kvs, jobs, k);
        kvs, jobs := kvs - {k}, jobs + [k[|prefix|..]];
      }
      JobFeed.SliceEnd(name, store, jobs);
      listing, unsent := Some(jobs), jobs;
    }

    method SendListedJob()
      requires Enabled(Cfg(), View(), SendListed)
      modifies this`unsent, this`jobChan, this`sent
      ensures View() == Do(Cfg(), old(View()), SendListed)
    {
      jobChan, sent := jobChan + [unsent[0]], sent + [JobFeed.Sending(JobFeed.FromListing, unsent[0])];
      unsent := unsent[1..];
    }

    method ReceiveEvent()
      requires Enabled(Cfg(), View(), Receive)
      modifies this`pending, this`hand
      ensures View() == Do(Cfg(), old(View()), Receive)
    {
      var ev := pending[0];
      pending := pending[1..];
      match ev {
        case Put(k, _) => hand := Some(k[|AssignDir(name)|..]);
        case Delete(_) =>
      }
    }

    method SendWatchedJob()
      requires Enabled(Cfg(), View(), SendWatched)
      modifies this`hand, this`jobChan, this`sent
      ensures View() == Do(Cfg(), old(View()), SendWatched)
    {
      jobChan, sent := jobChan + [hand.value], sent + [JobFeed.Sending(JobFeed.FromWatch, hand.value)];
      hand := None;
    }

    method ReceiveJob(slot: nat)
      requires Enabled(Cfg(), View(), Take(slot))
      modifies this`jobChan, this`workers, this`taken
      ensures View() == Do(Cfg(), old(View()), Take(slot))
    {
      workers, taken := workers[slot := Taken(jobChan[0])], taken + [jobChan[0]];
      jobChan := jobChan[1..];
    }

    /** runJob, until the command is known; without one it returns, and leaves the assign key where it is. */
    method FetchCommand(slot: nat)
      requires Enabled(Cfg(), View(), Fetch(slot))
      modifies this`workers, this`runs, this`dropped
      ensures View() == Do(Cfg(), old(View()), Fetch(slot))
    {
      var job := workers[slot].job;
      if JobKey(job) !in store || !runnable(store[JobKey(job)]) {
        workers := workers[slot := Idle];
        dropped := if AssignKey(name, job) in store then dropped + {job} else dropped;
      } else {
        workers := workers[slot := At(Fetched, runs, Attempt(job, false, "", false))];
        runs := runs + 1;
      }
    }

    /** The next write of the run in a slot. */
    method RunWrite(slot: nat, phase: Phase, e: Event)
      requires slot < |workers| && workers[slot].At?
      modifies this`workers, this`store, this`pending, this`events, this`log, this`missed, this`dropped
      ensures View() == JobRunner.Advance(Cfg(), old(View()), slot, phase, e)
    {
      workers := workers[slot := workers[slot].(phase := phase)];
      Write(e, Run(workers[slot].run));
    }

    method ClearOutput(slot: nat)
      requires Enabled(Cfg(), View(), Clear(slot))
      modifies this`workers, this`store, this`pending, this`events, this`log, this`missed, this`dropped
      ensures View() == Do(Cfg(), old(View()), Clear(slot))
    {
      var w := workers[slot];
      var e := Delete(OutputKey(w.attempt.job));
      workers := workers[slot := w.(attempt := w.attempt.(cleared := e.key in store))];
      RunWrite(slot, Cleared, e);
    }

    method SetRunning(slot: nat)
      requires Enabled(Cfg(), View(), Mark(slot))
      modifies this`workers, this`store, this`pending, this`events, this`log, this`missed, this`dropped
      ensures View() == Do(Cfg(), old(View()), Mark(slot))
    {
      RunWrite(slot, Marked, Put(StateKey(workers[slot].attempt.job), RUNNING));
    }

    method ExecuteCommand(slot: nat, output: string, ok: bool)
      requires Enabled(Cfg(), View(), Execute(slot, output, ok))
      modifies this`workers
      ensures View() == Do(Cfg(), old(View()), Execute(slot, output, ok))
    {
      var w := workers[slot];
      workers := workers[slot := At(Exited, w.run, w.attempt.(output := output, ok := ok))];
    }

    method SetOutput(slot: nat)
      requires Enabled(Cfg(), View(), Print(slot))
      modifies this`workers, this`store, this`pending, this`events, this`log, this`missed, this`dropped
      ensures View() == Do(Cfg(), old(View()), Print(slot))
    {
      var attempt := workers[slot].attempt;
      RunWrite(slot, Printed, Put(OutputKey(attempt.job), attempt.output));
    }

    method SetVerdict(slot: nat)
      requires Enabled(Cfg(), View(), Judge(slot))
      modifies this`workers, this`store, this`pending, this`events, this`log, this`missed, this`dropped
      ensures View() == Do(Cfg(), old(View()), Judge(slot))
    {
      var attempt := workers[slot].attempt;
      RunWrite(slot, Judged, Put(StateKey(attempt.job), if attempt.ok then DONE else FAIL));
    }

    method DeleteAssigned(slot: nat)
      requires Enabled(Cfg(), View(), Remove(slot))
      modifies this`workers, this`store, this`pending, this`events, this`log, this`missed, this`dropped
      ensures View() == Do(Cfg(), old(View()), Remove(slot))
    {
      var w := workers[slot];
      workers := workers[slot := Idle];
      Write(Delete(AssignKey(name, w.attempt.job)), Run(w.run));
    }

    /** All goroutines together, in any order, until none can go on: what is still assigned was missed or dropped, and
        every other job was judged before its key went.  With no worker at all the store stays as it was. */
    method Serve(ghost initial: Store)
      requires CoverInv(Cfg(), View()) && HistoryInv(Cfg(), initial, View())
      modifies this
      ensures HasComeFrom(Cfg(), initial, old(View()), View())
      ensures parallelCount >= 1 ==> AtRest(View()) && DirJobs(name, store) == missed + dropped
      ensures forall job | job in old(DirJobs(name, store)) ::
                job in DirJobs(name, store) || JudgedSince(Cfg(), old(View()), View(), job)
      ensures parallelCount == 0 ==> store == old(store)
    {
      ghost var start := View();
      RunGoroutines(initial);
      if parallelCount >= 1 {
        Stuck();
      }
      GoneAreJudged(initial, start);
    }

    method RunGoroutines(ghost initial: Store)
      requires CoverInv(Cfg(), View()) && HistoryInv(Cfg(), initial, View())
      modifies this
      ensures HasComeFrom(Cfg(), initial, old(View()), View()) && !CanFeed() && AllWait()
      ensures parallelCount == 0 ==> store == old(store)
    {
      ghost var start := View();
      while CanFeed() || !AllWait()
        invariant HasComeFrom(Cfg(), initial, start, View())
        invariant parallelCount == 0 ==> store == old(store)
        decreases Cost(Cfg(), View())
      {
        GoOn(initial, start);
      }
    }

    /** Whatever any goroutine does next. */
    method GoOn(ghost initial: Store, ghost start: State)
      requires HasComeFrom(Cfg(), initial, start, View()) && (CanFeed() || !AllWait())
      modifies this
      ensures HasComeFrom(Cfg(), initial, start, View())
      ensures Cost(Cfg(), View()) < old(Cost(Cfg(), View()))
      ensures parallelCount == 0 ==> store == old(store)
    {
      if {
        case CanFeed() =>
          Feed(initial, start);
        case !AllWait() =>
          LetProceed(initial, start);
      }
    }

    /** Some goroutine between the store and the channel can go on. */
    predicate CanFeed()
      reads this
    {
      || !watching || listing.None? || (unsent != [] && |jobChan| < parallelCount)
      || (hand.None? && pending != []) || (hand.Some? && |jobChan| < parallelCount)
    }

    /** Whatever one of them does next. */
    method Feed(ghost initial: Store, ghost start: State)
      requires HasComeFrom(Cfg(), initial, start, View()) && CanFeed()
      modifies this`watching, this`listing, this`unsent, this`pending, this`hand, this`jobChan, this`sent
      ensures HasComeFrom(Cfg(), initial, start, View())
      ensures Cost(Cfg(), View()) < old(Cost(Cfg(), View()))
      ensures store == old(store)
    {
      if {
        case !watching =>
          StepComes(Cfg(), initial, start, View(), OpenWatch);
          Watch();
        case listing.None? =>
          ghost var before := View();
          var jobs := ListAssigned();
          StepComes(Cfg(), initial, start, before, ListJobs(jobs));
        case unsent != [] && |jobChan| < parallelCount =>
          StepComes(Cfg(), initial, start, View(), SendListed);
          SendListedJob();
        case hand.None? && pending != [] =>
          StepComes(Cfg(), initial, start, View(), Receive);
          ReceiveEvent();
        case hand.Some? && |jobChan| < parallelCount =>
          StepComes(Cfg(), initial, start, View(), SendWatched);
          SendWatchedJob();
      }
    }

    predicate AllWait()
      reads this
    {
      forall i: nat | i < |workers| :: CanOnlyWait(i)
    }

    predicate CanOnlyWait(i: nat)
      requires i < |workers|
      reads this
    {
      workers[i].Idle? && jobChan == []
    }

    /** Some worker goes on. */
    method LetProceed(ghost initial: Store, ghost start: State)
      requires HasComeFrom(Cfg(), initial, start, View()) && !AllWait()
      modifies this
      ensures HasComeFrom(Cfg(), initial, start, View())
      ensures Cost(Cfg(), View()) < old(Cost(Cfg(), View())) && parallelCount >= 1
    {
      var i: nat :| i < |workers| && !CanOnlyWait(i);
      Proceed(i, initial, start);
    }

    /** Whatever a worker does next. */
    method Proceed(i: nat, ghost initial: Store, ghost start: State)
      requires HasComeFrom(Cfg(), initial, start, View()) && i < |workers| && !CanOnlyWait(i)
      modifies this
      ensures HasComeFrom(Cfg(), initial, start, View())
      ensures Cost(Cfg(), View()) < old(Cost(Cfg(), View()))
    {
      match workers[i] {
        case Idle =>
          StepComes(Cfg(), initial, start, View(), Take(i));
          ReceiveJob(i);
        case Taken(_) =>
          StepComes(Cfg(), initial, start, View(), Fetch(i));
          FetchCommand(i);
        case At(_, _, _) =>
          Continue(i, initial, start);
      }
    }

    /** The next step of the run in a slot. */
    method Continue(i: nat, ghost initial: Store, ghost start: State)
      requires HasComeFrom(Cfg(), initial, start, View()) && i < |workers| && workers[i].At?
      modifies this
      ensures HasComeFrom(Cfg(), initial, start, View())
      ensures Cost(Cfg(), View()) < old(Cost(Cfg(), View()))
    {
      match workers[i].phase {
        case Fetched =>
          StepComes(Cfg(), initial, start, View(), Clear(i));
          ClearOutput(i);
        case Cleared =>
          StepComes(Cfg(), initial, start, View(), Mark(i));
          SetRunning(i);
        case Marked =>
          var output: string, ok: bool := *, *;
          StepComes(Cfg(), initial, start, View(), Execute(i, output, ok));
          ExecuteCommand(i, output, ok);
        case Exited =>
          StepComes(Cfg(), initial, start, View(), Print(i));
          SetOutput(i);
        case Printed =>
          StepComes(Cfg(), initial, start, View(), Judge(i));
          SetVerdict(i);
        case Judged =>
          StepComes(Cfg(), initial, start, View(), Remove(i));
          DeleteAssigned(i);
      }
    }

    lemma Stuck()
      requires CoverInv(Cfg(), View()) && parallelCount >= 1 && !CanFeed() && AllWait()
      ensures AtRest(View()) && DirJobs(name, store) == missed + dropped
    {
      assert CanOnlyWait(0);
      forall i: nat | i < |workers|
        ensures workers[i].Idle?
      {
        assert CanOnlyWait(i);
      }
      RestLeaves(Cfg(), View());
    }

    lemma GoneAreJudged(initial: Store, start: State)
      requires HistoryInv(Cfg(), initial, start) && HasComeFrom(Cfg(), initial, start, View())
      ensures forall job | job in DirJobs(name, start.store) && job !in DirJobs(name, store) ::
                JudgedSince(Cfg(), start, View(), job)
    {
      forall job | job in DirJobs(name, start.store) && job !in DirJobs(name, store)
        ensures JudgedSince(Cfg(), start, View(), job)
      {
        GoneMeansJudged(Cfg(), initial, start, View(), job);
      }
    }
  }
}
