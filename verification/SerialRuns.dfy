/** Which servers run a job one run at a time: exactly those with no more than one worker. */
module SerialRuns {
  import opened Etcd
  import opened JobCache
  import opened JobRecovery
  import opened JobResults
  import opened JobRunner
  import opened JobScenarios
  import opened MixedOutputs
  import opened OutputBeforeVerdict
  import opened RunWrites
  import opened RepeatedRuns

  /** No entry is of a later run than this. */
  predicate UpTo(log: seq<Entry>, run: nat) {
    forall q | 0 <= q < |log| && log[q].actor.Run? :: log[q].actor.id <= run
  }

  /** The runs come one after the other. */
  predicate Ascending(log: seq<Entry>) {
    forall p, q | 0 <= p < q < |log| && log[p].actor.Run? && log[q].actor.Run? :: log[p].actor.id <= log[q].actor.id
  }

  /** With one worker at most: its run, and any run to come, is at least as late as all that has been written. */
  predicate SerialInv(s: State) {
    && |s.workers| <= 1
    && Ascending(s.log) && UpTo(s.log, s.runs)
    && forall i | 0 <= i < |s.workers| && s.workers[i].At? ::
         s.workers[i].run <= s.runs && UpTo(s.log, s.workers[i].run)
  }

  lemma WriteStaysSerial(cfg: Config, s: State, i: nat, w: Worker, e: Event)
    requires SerialInv(s) && i < |s.workers| && s.workers[i].At? && (w.At? ==> w.run == s.workers[i].run)
    ensures SerialInv(Write(cfg, s.(workers := s.workers[i := w]), e, Run(s.workers[i].run)))
  {
    var run := s.workers[i].run;
    var log := s.log + [Entry(e, Run(run))];
    assert UpTo(s.log, run);
    assert Ascending(log) && UpTo(log, run);
  }

  lemma StepStaysSerial(cfg: Config, s: State, step: Step)
    requires SerialInv(s) && cfg.slots <= 1 && Enabled(cfg, s, step)
    ensures SerialInv(Do(cfg, s, step))
  {
    match step {
      case ClientWrite(e) => assert UpTo(s.log + [Entry(e, Client)], s.runs);
      case Fetch(i) =>
      case Clear(i) =>
        var w := s.workers[i];
        var e := Delete(OutputKey(w.attempt.job));
        var next := w.(phase := Cleared, attempt := w.attempt.(cleared := Emits(s.store, e)));
        WriteStaysSerial(cfg, s, i, next, e);
        assert s.workers[i := w.(attempt := next.attempt)][i := next] == s.workers[i := next];
      case Mark(i) =>
        var w := s.workers[i];
        WriteStaysSerial(cfg, s, i, w.(phase := Marked), Put(StateKey(w.attempt.job), RUNNING));
      case Print(i) =>
        var w := s.workers[i];
        WriteStaysSerial(cfg, s, i, w.(phase := Printed), Put(OutputKey(w.attempt.job), w.attempt.output));
      case Judge(i) =>
        var w := s.workers[i];
        WriteStaysSerial(cfg, s, i, w.(phase := Judged), Put(StateKey(w.attempt.job), Verdict(w.attempt.ok)));
      case Remove(i) =>
        WriteStaysSerial(cfg, s, i, Idle, Delete(AssignKey(cfg.server, s.workers[i].attempt.job)));
      case _ =>
    }
  }

  lemma {:induction false} RunsStaySerial(cfg: Config, s: State, steps: seq<Step>, t: State)
    requires SerialInv(s) && cfg.slots <= 1 && After(cfg, s, steps) == Some(t)
    ensures SerialInv(t)
    decreases |steps|
  {
    if steps != [] {
      StepStaysSerial(cfg, s, steps[0]);
      RunsStaySerial(cfg, Do(cfg, s, steps[0]), steps[1..], t);
    }
  }

  /** A server with one worker runs every job one run at a time, through any crashes, whatever clients do. */
  lemma OneWorkerIsSerial(cfg: Config, initial: Store, steps: seq<Step>, t: State, job: string)
    requires cfg.slots <= 1 && After(cfg, Boot(cfg, initial, [], 0), steps) == Some(t)
    ensures forall n | 0 <= n <= |t.log| && OnlyRuns(initial, t.log[..n], job) :: OneAtATime(t.log[..n], job)
  {
    RunsStaySerial(cfg, Boot(cfg, initial, [], 0), steps, t);
    forall n | 0 <= n <= |t.log| && OnlyRuns(initial, t.log[..n], job)
      ensures OneAtATime(t.log[..n], job)
    {
      AscendingIsOneAtATime(initial, t.log[..n], job);
    }
  }

  lemma AscendingIsOneAtATime(initial: Store, log: seq<Entry>, job: string)
    requires Ascending(log) && OnlyRuns(initial, log, job)
    ensures OneAtATime(log, job)
  {
    forall p, q, r | 0 <= p < q < r < |log| && OnKeys(log[p].event, job) && OnKeys(log[q].event, job) &&
                     OnKeys(log[r].event, job) && log[p].actor == log[r].actor
      ensures log[q].actor == log[p].actor
    {
      assert log[p].actor.id <= log[q].actor.id <= log[r].actor.id;
    }
  }

  /** With two workers there is a run in which the job's runs overlap. */
  lemma TwoWorkersOverlap(cfg: Config, job: string, command: string) returns (steps: seq<Step>, t: State)
    requires cfg.slots >= 2 && cfg.runnable(command)
    ensures After(cfg, Boot(cfg, map[JobKey(job) := command], [], 0), steps) == Some(t)
    ensures OnlyRuns(map[JobKey(job) := command], t.log, job) && !OneAtATime(t.log, job)
  {
    steps, t := RunsOverlap(cfg, job, command, "", "");
    KeysOfOneJob(cfg, job);
    ReachedIsOrdered(cfg, map[JobKey(job) := command], steps, t);
    var last := |t.log| - 1;
    VerdictsAreNoOtherStatus();
    var a, m := VerdictHasOutput(cfg, t.log, job, last);
    assert OnKeys(t.log[m].event, job) && OnKeys(t.log[last - 1].event, job) && OnKeys(t.log[last].event, job);
    assert t.log[m].actor == t.log[last].actor != t.log[last - 1].actor;
    assert m < last - 1;
  }

  /** All runs of the server keep the runs of a job apart that only they write about. */
  ghost predicate IsSerial(cfg: Config, initial: Store, job: string) {
    forall steps: seq<Step> ::
      After(cfg, Boot(cfg, initial, [], 0), steps).Some? ==>
        var log := After(cfg, Boot(cfg, initial, [], 0), steps).value.log;
        OnlyRuns(initial, log, job) ==> OneAtATime(log, job)
  }

  /** The number of workers decides: with one, runs of a job never overlap; with more, they can, for every job that
      can be run. */
  lemma SerialIffOneWorker(cfg: Config, job: string, command: string)
    requires cfg.runnable(command)
    ensures IsSerial(cfg, map[JobKey(job) := command], job) <==> cfg.slots <= 1
  {
    var initial := map[JobKey(job) := command];
    if cfg.slots <= 1 {
      forall steps: seq<Step> | After(cfg, Boot(cfg, initial, [], 0), steps).Some?
        ensures var log := After(cfg, Boot(cfg, initial, [], 0), steps).value.log;
                OnlyRuns(initial, log, job) ==> OneAtATime(log, job)
      {
        var t := After(cfg, Boot(cfg, initial, [], 0), steps).value;
        OneWorkerIsSerial(cfg, initial, steps, t, job);
        assert t.log[..|t.log|] == t.log;
      }
    } else {
      var steps, t := TwoWorkersOverlap(cfg, job, command);
      assert After(cfg, Boot(cfg, initial, [], 0), steps).Some?;
    }
  }

  // ---- What that means for the store

  /** A stored output next to a last verdict is one that the judged run has put itself. */
  predicate HasOwnOutput(log: seq<Entry>, store: Store, job: string) {
    forall p | 0 <= p < |log| && IsLastVerdict(log, job, p) && OutputKey(job) in store ::
      IsPutBy(log, OutputKey(job), store[OutputKey(job)], p)
  }

  predicate IsPutBy(log: seq<Entry>, key: string, value: string, p: nat)
    requires p < |log|
  {
    exists m :: 0 <= m < p && log[m] == Entry(Put(key, value), log[p].actor)
  }

  lemma SerialHasOwnOutput(cfg: Config, initial: Store, steps: seq<Step>, t: State, job: string)
    requires After(cfg, Boot(cfg, initial, [], 0), steps) == Some(t)
    requires OnlyRuns(initial, t.log, job) && OneAtATime(t.log, job)
    ensures HasOwnOutput(t.log, t.store, job)
  {
    FirstBoot(cfg, initial);
    RunsKeepHistory(cfg, initial, Boot(cfg, initial, [], 0), steps, t);
    ReachedIsOrdered(cfg, initial, steps, t);
    forall p | IsLastVerdict(t.log, job, p) && OutputKey(job) in t.store
      ensures IsPutBy(t.log, OutputKey(job), t.store[OutputKey(job)], p)
    {
      var a, m := LastVerdictHasLastOutput(cfg, initial, t.log, job, p);
      StoredIsLastPut(initial, t.log, OutputKey(job), "");
      LastPutIs(t.log, OutputKey(job), "", m);
    }
  }

  /** In the overlap the first worker has judged the job, and has never put the output that is stored. */
  lemma OverlapHasAnother(cfg: Config, initial: Store, steps: seq<Step>, t: State, job: string, first: string,
                          second: string)
    requires After(cfg, Boot(cfg, initial, [], 0), steps) == Some(t) && first != second
    requires IsOverlap(cfg, t, job, first, second)
    ensures !HasOwnOutput(t.log, t.store, job)
  {
    FirstBoot(cfg, initial);
    RunsKeepHistory(cfg, initial, Boot(cfg, initial, [], 0), steps, t);
    var last, a := |t.log| - 1, t.workers[0].attempt;
    assert WorkerInv(cfg, t.log, t.runs, t.workers[0]);
    assert IsLastVerdict(t.log, job, last);
    forall m | 0 <= m < last && t.log[m].actor == Run(0)
      ensures t.log[m].event != Put(OutputKey(job), second)
    {
      NextIsWrite(cfg, t.log, 0, a, m);
      WritesOnJob(cfg, a, Made(t.log, 0, m), job);
      WriteAt(cfg, a, Made(t.log, 0, m));
    }
    assert !IsPutBy(t.log, OutputKey(job), second, last);
  }

  ghost predicate NeverMixes(cfg: Config, initial: Store, job: string) {
    forall steps: seq<Step> ::
      After(cfg, Boot(cfg, initial, [], 0), steps).Some? ==>
        var t := After(cfg, Boot(cfg, initial, [], 0), steps).value;
        OnlyRuns(initial, t.log, job) ==> HasOwnOutput(t.log, t.store, job)
  }

  /** Over all runs of a server, the store never holds a verdict next to the output of another run if and only if the
      server has no more than one worker. */
  lemma NeverMixesIffOneWorker(cfg: Config, job: string, command: string)
    requires cfg.runnable(command)
    ensures NeverMixes(cfg, map[JobKey(job) := command], job) <==> cfg.slots <= 1
  {
    var initial := map[JobKey(job) := command];
    if cfg.slots <= 1 {
      forall steps: seq<Step> | After(cfg, Boot(cfg, initial, [], 0), steps).Some?
        ensures var t := After(cfg, Boot(cfg, initial, [], 0), steps).value;
                OnlyRuns(initial, t.log, job) ==> HasOwnOutput(t.log, t.store, job)
      {
        var t := After(cfg, Boot(cfg, initial, [], 0), steps).value;
        OneWorkerIsSerial(cfg, initial, steps, t, job);
        assert t.log[..|t.log|] == t.log;
        if OnlyRuns(initial, t.log, job) {
          SerialHasOwnOutput(cfg, initial, steps, t, job);
        }
      }
    } else {
      var steps, t := RunsOverlap(cfg, job, command, "first", "second");
      assert "first"[0] != "second"[0];
      KeysOfOneJob(cfg, job);
      OverlapHasAnother(cfg, initial, steps, t, job, "first", "second");
      assert After(cfg, Boot(cfg, initial, [], 0), steps).Some?;
    }
  }

  // ---- What that means for clients

  /** A server with one worker, any client, and whatever it has read: it shows the verdict of a run, and with it
      nothing, if it knows of no output; or that run's own output, if it is the last as of the moment shown; and
      otherwise that of another run. */
  lemma AnyReaderOfOneWorker(cfg: Config, decode: Decoder, initial: Store, steps: seq<Step>, t: State, seen: nat,
                             job: string, first: nat, snapshot: seq<Event>, later: seq<WatcherStep>, d: Watcher)
    returns (p: nat, m: nat, a: Attempt)
    requires cfg.slots <= 1 && After(cfg, Boot(cfg, initial, [], 0), steps) == Some(t) && seen <= |t.log|
    requires OnlyRuns(initial, t.log[..seen], job) && '/' !in job && IsVerdict(Get(d.jobs, job).status)
    requires IsReader(decode, initial, t.log[..seen], first, snapshot, later, d)
    ensures m < p < seen && t.log[p].actor.Run? && a.job == job && Get(d.jobs, job).status == Verdict(a.ok)
    ensures t.log[m] == Entry(Put(OutputKey(job), a.output), t.log[p].actor)
    ensures var given, run := AllGiven(cfg, initial, steps), t.log[p].actor.id;
            run in given && given[run] == Result(job, a.output, a.ok)
    ensures var log, shown := t.log[..seen], Get(d.jobs, job).stdouterr;
            var output := KeyAsOf(initial, log, OutputKey(job), first, later);
      if output.None? then shown == ""
      else output.value <= |log| &&
           if m < output.value && !PutIn(log[..output.value], OutputKey(job), m + 1) then shown == a.output
           else IsOfAnother(log, job, p, shown)
  {
    var log := t.log[..seen];
    OneWorkerIsSerial(cfg, initial, steps, t, job);
    ReachedIsOrdered(cfg, initial, steps, t);
    OrderedPrefix(cfg, t.log, seen);
    p, m, a := VerdictOfAnyReader(cfg, decode, initial, log, job, first, snapshot, later, d);
    assert log[p] == t.log[p] && log[m] == t.log[m];
    LogHoldsResults(cfg, initial, steps, t);
    ShownIsGiven(t.log, job, p, m, a, AllGiven(cfg, initial, steps));
  }

  /** A server with one worker, and any client that is up to date: a verdict that it shows is the last it has been told
      of, and that run's output is shown with it, unless the client knows of no output. */
  lemma VerdictsOfOneWorker(cfg: Config, decode: Decoder, initial: Store, steps: seq<Step>, t: State, seen: nat,
                            job: string, first: nat, snapshot: seq<Event>, later: seq<WatcherStep>, d: Watcher)
    returns (p: nat, a: Attempt)
    requires cfg.slots <= 1 && After(cfg, Boot(cfg, initial, [], 0), steps) == Some(t) && seen <= |t.log|
    requires OnlyRuns(initial, t.log[..seen], job) && '/' !in job && IsVerdict(Get(d.jobs, job).status)
    requires IsReader(decode, initial, t.log[..seen], first, snapshot, later, d)
    requires IsUpToDate(initial, t.log[..seen], job, first, later, d.delivered)
    ensures first <= d.delivered <= seen && IsLastVerdict(t.log[..d.delivered], job, p) && a.job == job
    ensures t.log[p].actor.Run? && Trail(t.log[..seen], t.log[p].actor.id) <= Writes(cfg, a)
    ensures Get(d.jobs, job).status == Verdict(a.ok)
    ensures var given, run := AllGiven(cfg, initial, steps), t.log[p].actor.id;
            run in given && given[run] == Result(job, a.output, a.ok)
    ensures Get(d.jobs, job).stdouterr == a.output <==>
            a.output == "" || KeyAsOf(initial, t.log[..seen], OutputKey(job), first, later).Some?
    ensures ReadsSince(first, later) ==>
      (Get(d.jobs, job).stdouterr == a.output <==>
       a.output == "" || !(InGap(t.log[..first], job) && !PutIn(t.log[..d.delivered], OutputKey(job), first)))
  {
    OneWorkerIsSerial(cfg, initial, steps, t, job);
    p, a := VerdictsOfRepeatedRuns(cfg, decode, initial, steps, t, seen, job, first, snapshot, later, d);
  }
}
