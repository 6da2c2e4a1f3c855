/** The ways in which a verdict can be shown with something else than its run's output, each reached from a start. */
module MixedOutputs {
  import opened Etcd
  import opened JobRunner
  import opened JobRecovery
  import opened JobCache
  import opened JobScenarios
  import opened OutputBeforeVerdict
  import opened RunWrites
  import opened RepeatedRuns

  lemma JudgedIsReady(cfg: Config, job: string, command: string, output: string)
    ensures var store := OnceRun(Ready(cfg, job, command), job, output);
      && DirJobs(cfg.server, store) == {job}
      && JobKey(job) in store && store[JobKey(job)] == command
      && OutputKey(job) in store && store[StateKey(job)] == DONE
  {
    var ready := Ready(cfg, job, command);
    KeysOfOneJob(cfg, job);
    OneJob(cfg, job, command);
    DirJobsAfter(cfg.server, ready, Put(StateKey(job), RUNNING));
    var marked := ready[StateKey(job) := RUNNING];
    DirJobsAfter(cfg.server, marked, Put(OutputKey(job), output));
    DirJobsAfter(cfg.server, marked[OutputKey(job) := output], Put(StateKey(job), DONE));
  }

  /** A job is run and judged, the process dies before the assign key is removed, and the next one runs the job
      again. */
  lemma RunsAgain(cfg: Config, job: string, command: string, output: string) returns (steps: seq<Step>, t: State)
    requires cfg.slots >= 1 && cfg.runnable(command)
    ensures After(cfg, Boot(cfg, Ready(cfg, job, command), [], 0), steps) == Some(t)
    ensures t.store == OnceRun(Ready(cfg, job, command), job, output) && InPhase(t, 0, Fetched)
    ensures t.log == OnceLogged(job, output)
    ensures t.workers[0] == NewRun(1, job)
  {
    var s0 := Boot(cfg, Ready(cfg, job, command), [], 0);
    var m: State, more: seq<Step>;
    steps, m := JudgesOnce(cfg, job, command, output);
    steps, m := Then(cfg, s0, steps, m, Crash);
    JudgedIsReady(cfg, job, command, output);
    more, t := StartsRun(cfg, m, job);
    AfterJoined(cfg, s0, steps, m, more, t);
    steps := steps + more;
  }

  /** The gap can be reached: a client that connects in it shows done without the output of the run that was done. */
  lemma GapShowsNothing(cfg: Config, decode: Decoder, job: string, command: string, output: string)
    returns (steps: seq<Step>, t: State)
    requires cfg.slots >= 1 && cfg.runnable(command) && '/' !in job
    ensures After(cfg, Boot(cfg, Ready(cfg, job, command), [], 0), steps) == Some(t)
    ensures IsLastVerdict(t.log, job, 2) && t.log[1] == Entry(Put(OutputKey(job), output), t.log[2].actor)
    ensures InGap(t.log, job)
    ensures forall snapshot | IsSnapshot(t.store, snapshot) ::
              var shown := Get(Absorb(decode, map[], snapshot), job);
              shown.status == DONE && shown.stdouterr == ""
  {
    var s0 := Boot(cfg, Ready(cfg, job, command), [], 0);
    var m: State;
    steps, m := RunsAgain(cfg, job, command, output);
    JudgedIsReady(cfg, job, command, output);
    KeysOfOneJob(cfg, job);
    steps, t := Then(cfg, s0, steps, m, Clear(0));
    assert t.log[3] == Entry(Delete(OutputKey(job)), Run(1));
    forall snapshot | IsSnapshot(t.store, snapshot)
      ensures var shown := Get(Absorb(decode, map[], snapshot), job);
              shown.status == DONE && shown.stdouterr == ""
    {
      SnapshotFields(decode, map[], t.store, snapshot, job);
    }
  }

  /** The history of two runs, one after the other; the second has not been judged yet. */
  function TwiceLogged(job: string, first: string, second: string): seq<Entry> {
    OnceLogged(job, first) +
    By(1, [Delete(OutputKey(job)), Put(StateKey(job), RUNNING), Put(OutputKey(job), second)])
  }

  lemma RunsTwice(cfg: Config, job: string, command: string, first: string, second: string, ok: bool)
    returns (steps: seq<Step>, t: State)
    requires cfg.slots >= 1 && cfg.runnable(command)
    ensures After(cfg, Boot(cfg, Ready(cfg, job, command), [], 0), steps) == Some(t)
    ensures InPhase(t, 0, Printed) && t.workers[0].run == 1 && t.workers[0].attempt.job == job
    ensures t.workers[0].attempt.ok == ok
    ensures t.log == TwiceLogged(job, first, second) && t.store == Replay(Ready(cfg, job, command), Events(t.log))
    ensures StateKey(job) in t.store && t.store[StateKey(job)] == RUNNING
    ensures OutputKey(job) in t.store && t.store[OutputKey(job)] == second
  {
    var initial := Ready(cfg, job, command);
    var m: State, more: seq<Step>;
    steps, m := RunsAgain(cfg, job, command, first);
    JudgedIsReady(cfg, job, command, first);
    more, t := PrintsOutput(cfg, m, 0, second, ok);
    AfterJoined(cfg, Boot(cfg, initial, [], 0), steps, m, more, t);
    steps := steps + more;
    KeysOfOneJob(cfg, job);
    FirstBoot(cfg, initial);
    RunsKeepHistory(cfg, initial, Boot(cfg, initial, [], 0), steps, t);
  }

  /** Reading ahead of the watch mixes runs, until the watch has caught up: the client has been told of the first
      run's output, reads the store when the second has put its own, and is then told of the first run's verdict. */
  lemma ReadingAheadMixes(cfg: Config, decode: Decoder, job: string, command: string, first: string, second: string)
    returns (steps: seq<Step>, t: State)
    requires cfg.slots >= 1 && cfg.runnable(command) && '/' !in job
    ensures After(cfg, Boot(cfg, Ready(cfg, job, command), [], 0), steps) == Some(t)
    ensures t.log == TwiceLogged(job, first, second)
    ensures forall snapshot, ahead |
      IsSnapshot(Ready(cfg, job, command), snapshot) && IsSnapshot(t.store, ahead) ::
      var d := WatcherAfter(decode, Ready(cfg, job, command), t.log, Watcher(Absorb(decode, map[], snapshot), 0),
                            [Deliver, Deliver, Refresh(6, ahead), Deliver]);
      d.Some? && Get(d.value.jobs, job).status == DONE && Get(d.value.jobs, job).stdouterr == second
  {
    var initial := Ready(cfg, job, command);
    steps, t := RunsTwice(cfg, job, command, first, second, true);
    KeysOfOneJob(cfg, job);
    forall snapshot, ahead | IsSnapshot(initial, snapshot) && IsSnapshot(t.store, ahead)
      ensures var d := WatcherAfter(decode, initial, t.log, Watcher(Absorb(decode, map[], snapshot), 0),
                                    [Deliver, Deliver, Refresh(6, ahead), Deliver]);
        d.Some? && Get(d.value.jobs, job).status == DONE && Get(d.value.jobs, job).stdouterr == second
    {
      ReadAhead(decode, initial, t.log, job, Absorb(decode, map[], snapshot), ahead, second);
    }
  }

  /** Both runs have been judged, the second otherwise than the first. */
  function JudgedTwice(job: string, first: string, second: string): seq<Entry> {
    TwiceLogged(job, first, second) + By(1, [Put(StateKey(job), FAIL)])
  }

  /** Reading behind it mixes them until something else is put: a client connects when the first run has been judged
      and is told of everything; then it takes in the store as it was between the runs.  It has been told of all
      there is, and shows the first run's verdict with the second's output. */
  lemma ReadingBehindMixes(cfg: Config, decode: Decoder, job: string, command: string, first: string, second: string)
    returns (steps: seq<Step>, t: State)
    requires cfg.slots >= 1 && cfg.runnable(command) && '/' !in job
    ensures After(cfg, Boot(cfg, Ready(cfg, job, command), [], 0), steps) == Some(t)
    ensures t.log == JudgedTwice(job, first, second)
    ensures forall snapshot, behind |
      IsSnapshot(Replay(Ready(cfg, job, command), Events(t.log[..3])), snapshot) &&
      IsSnapshot(Replay(Ready(cfg, job, command), Events(t.log[..4])), behind) ::
      var d := WatcherAfter(decode, Ready(cfg, job, command), t.log, Watcher(Absorb(decode, map[], snapshot), 3),
                            [Deliver, Deliver, Deliver, Deliver, Refresh(4, behind)]);
      d.Some? && d.value.delivered == |t.log| &&
      Get(d.value.jobs, job).status == DONE && Get(d.value.jobs, job).stdouterr == second
  {
    var initial := Ready(cfg, job, command);
    var s0 := Boot(cfg, initial, [], 0);
    var m: State;
    steps, m := RunsTwice(cfg, job, command, first, second, false);
    steps, t := Then(cfg, s0, steps, m, Judge(0));
    assert t.log == JudgedTwice(job, first, second);
    KeysOfOneJob(cfg, job);
    forall snapshot, behind | IsSnapshot(Replay(initial, Events(t.log[..3])), snapshot) &&
                              IsSnapshot(Replay(initial, Events(t.log[..4])), behind)
      ensures var d := WatcherAfter(decode, initial, t.log, Watcher(Absorb(decode, map[], snapshot), 3),
                                    [Deliver, Deliver, Deliver, Deliver, Refresh(4, behind)]);
        d.Some? && d.value.delivered == |t.log| &&
        Get(d.value.jobs, job).status == DONE && Get(d.value.jobs, job).stdouterr == second
    {
      ReadBehind(decode, initial, t.log, job, Absorb(decode, map[], snapshot), behind, first, second);
    }
  }

  lemma ReadBehind(decode: Decoder, initial: Store, log: seq<Entry>, job: string, jobs: Jobs, behind: seq<Event>,
                   first: string, second: string)
    requires '/' !in job && log == JudgedTwice(job, first, second) && StateKey(job) != OutputKey(job)
    requires IsSnapshot(Replay(initial, Events(log[..4])), behind)
    ensures var d := WatcherAfter(decode, initial, log, Watcher(jobs, 3),
                                  [Deliver, Deliver, Deliver, Deliver, Refresh(4, behind)]);
      d.Some? && d.value.delivered == |log| &&
      Get(d.value.jobs, job).status == DONE && Get(d.value.jobs, job).stdouterr == second
  {
    var c4 := Watcher(Handle(decode, jobs, log[3].event), 4);
    var c5 := Watcher(Handle(decode, c4.jobs, log[4].event), 5);
    var c6 := Watcher(Handle(decode, c5.jobs, log[5].event), 6);
    var c7 := Watcher(Handle(decode, c6.jobs, log[6].event), 7);
    var end := c7.(jobs := Absorb(decode, c7.jobs, behind));
    HandleFields(decode, c5.jobs, log[5].event, job);
    HandleFields(decode, c6.jobs, log[6].event, job);
    BetweenRuns(decode, initial, log, job, c7.jobs, behind, first, second);
    var none: seq<WatcherStep> := [];
    assert WatcherAfter(decode, initial, log, end, none) == Some(end);
    WatcherStepBy(decode, initial, log, c7, Refresh(4, behind), none, end);
    WatcherStepBy(decode, initial, log, c6, Deliver, [Refresh(4, behind)], end);
    WatcherStepBy(decode, initial, log, c5, Deliver, [Deliver, Refresh(4, behind)], end);
    WatcherStepBy(decode, initial, log, c4, Deliver, [Deliver, Deliver, Refresh(4, behind)], end);
    WatcherStepBy(decode, initial, log, Watcher(jobs, 3), Deliver, [Deliver, Deliver, Deliver, Refresh(4, behind)],
                  end);
  }

  lemma BetweenRuns(decode: Decoder, initial: Store, log: seq<Entry>, job: string, jobs: Jobs, behind: seq<Event>,
                    first: string, second: string)
    requires '/' !in job && log == JudgedTwice(job, first, second) && StateKey(job) != OutputKey(job)
    requires IsSnapshot(Replay(initial, Events(log[..4])), behind)
    ensures var shown := Get(Absorb(decode, jobs, behind), job);
            shown.status == DONE && shown.stdouterr == Get(jobs, job).stdouterr
  {
    var between := log[..4];
    assert between[2].event == Put(StateKey(job), DONE) && between[3].event == Delete(OutputKey(job));
    LastWriteDecides(initial, between, StateKey(job), 2);
    LastWriteDecides(initial, between, OutputKey(job), 3);
    SnapshotFields(decode, jobs, Replay(initial, Events(between)), behind, job);
  }

  lemma ReadAhead(decode: Decoder, initial: Store, log: seq<Entry>, job: string, jobs: Jobs, ahead: seq<Event>,
                  second: string)
    requires |log| == 6 && '/' !in job && log[2].event == Put(StateKey(job), DONE)
    requires IsSnapshot(Replay(initial, Events(log)), ahead)
    requires var st := Replay(initial, Events(log)); OutputKey(job) in st && st[OutputKey(job)] == second
    requires StateKey(job) != OutputKey(job)
    ensures var d := WatcherAfter(decode, initial, log, Watcher(jobs, 0),
                                  [Deliver, Deliver, Refresh(6, ahead), Deliver]);
      d.Some? && Get(d.value.jobs, job).status == DONE && Get(d.value.jobs, job).stdouterr == second
  {
    var c1 := Watcher(Handle(decode, jobs, log[0].event), 1);
    var c2 := Watcher(Handle(decode, c1.jobs, log[1].event), 2);
    var c3 := c2.(jobs := Absorb(decode, c2.jobs, ahead));
    var c4 := Watcher(Handle(decode, c3.jobs, log[2].event), 3);
    assert log[..6] == log;
    SnapshotFields(decode, c2.jobs, Replay(initial, Events(log)), ahead, job);
    HandleFields(decode, c3.jobs, log[2].event, job);
    var none: seq<WatcherStep> := [];
    assert WatcherAfter(decode, initial, log, c4, none) == Some(c4);
    WatcherStepBy(decode, initial, log, c3, Deliver, none, c4);
    WatcherStepBy(decode, initial, log, c2, Refresh(6, ahead), [Deliver], c4);
    WatcherStepBy(decode, initial, log, c1, Deliver, [Refresh(6, ahead), Deliver], c4);
    WatcherStepBy(decode, initial, log, Watcher(jobs, 0), Deliver, [Deliver, Refresh(6, ahead), Deliver], c4);
  }

  lemma WatcherStepBy(decode: Decoder, initial: Store, log: seq<Entry>, c: Watcher, step: WatcherStep,
                      rest: seq<WatcherStep>, d: Watcher)
    requires WatcherCan(initial, log, c, step)
    requires WatcherAfter(decode, initial, log, WatcherDo(decode, initial, log, c, step), rest) == Some(d)
    ensures WatcherAfter(decode, initial, log, c, [step] + rest) == Some(d)
  {
    assert ([step] + rest)[1..] == rest;
  }

  // ---- One assignment, two runs

  /** The job is assigned once, between the opening of the watch and the listing: both send it. */
  lemma BothSourcesSend(cfg: Config, job: string, command: string) returns (steps: seq<Step>, t: State)
    requires cfg.slots >= 2
    ensures After(cfg, Boot(cfg, map[JobKey(job) := command], [], 0), steps) == Some(t)
    ensures t.feed.queue == [job, job] && t.workers == seq(cfg.slots, _ => Idle) && t.runs == 0
    ensures t.store == Ready(cfg, job, command) && t.log == [Entry(Put(AssignKey(cfg.server, job), ""), Client)]
  {
    var s0 := Boot(cfg, map[JobKey(job) := command], [], 0);
    var m: State;
    OneJob(cfg, job, command);
    JobOfAssignKey(cfg.server, job);
    assert (set j | j in [job]) == {job} && After(cfg, s0, []) == Some(s0);
    steps, m := Then(cfg, s0, [], s0, OpenWatch);
    steps, m := Then(cfg, s0, steps, m, ClientWrite(Put(AssignKey(cfg.server, job), "")));
    assert m.store == Ready(cfg, job, command);
    steps, m := Then(cfg, s0, steps, m, ListJobs([job]));
    steps, m := Then(cfg, s0, steps, m, SendListed);
    steps, m := Then(cfg, s0, steps, m, Receive);
    steps, t := Then(cfg, s0, steps, m, SendWatched);
  }

  lemma TwoWorkersFetch(cfg: Config, s: State, job: string) returns (steps: seq<Step>, t: State)
    requires cfg.slots >= 2 && s.feed.queue == [job, job] && s.workers == seq(cfg.slots, _ => Idle) && s.runs == 0
    requires JobKey(job) in s.store && cfg.runnable(s.store[JobKey(job)])
    ensures After(cfg, s, steps) == Some(t) && t.store == s.store && t.log == s.log
    ensures |t.workers| == cfg.slots && t.workers[0] == NewRun(0, job) && t.workers[1] == NewRun(1, job)
  {
    var m: State;
    assert After(cfg, s, []) == Some(s);
    steps, m := Then(cfg, s, [], s, Take(0));
    steps, m := Then(cfg, s, steps, m, Take(1));
    steps, m := Then(cfg, s, steps, m, Fetch(0));
    steps, t := Then(cfg, s, steps, m, Fetch(1));
  }

  /** Overlapping runs mix: a new job that was assigned once is run by two workers.  The store holds the verdict of
      the one with the output of the other, and so does every client that connects, and every client that has
      been told everything from the start. */
  lemma OverlappingRunsMix(cfg: Config, decode: Decoder, job: string, command: string, first: string, second: string)
    returns (steps: seq<Step>, t: State)
    requires cfg.slots >= 2 && cfg.runnable(command) && '/' !in job
    ensures After(cfg, Boot(cfg, map[JobKey(job) := command], [], 0), steps) == Some(t)
    ensures IsOverlap(cfg, t, job, first, second)
    ensures forall snapshot | IsSnapshot(t.store, snapshot) ::
      var shown := Get(Absorb(decode, map[], snapshot), job); shown.status == DONE && shown.stdouterr == second
    ensures forall jobs ::
      var shown := Get(Absorb(decode, jobs, Events(t.log)), job); shown.status == DONE && shown.stdouterr == second
  {
    steps, t := RunsOverlap(cfg, job, command, first, second);
    KeysOfOneJob(cfg, job);
    AllShow(decode, t.store, t.log, job, second);
  }

  /** After one assignment, one worker has judged the job, and the other has put its output before that. */
  ghost predicate IsOverlap(cfg: Config, t: State, job: string, first: string, second: string) {
    && |t.workers| >= 2 && InPhase(t, 0, Judged) && InPhase(t, 1, Printed) && t.workers[0].run == 0
    && t.workers[0].attempt.output == first && t.workers[0].attempt.ok
    && t.workers[1].attempt.output == second && !t.workers[1].attempt.ok
    && |t.log| >= 2 && t.log[0] == Entry(Put(AssignKey(cfg.server, job), ""), Client)
    && (forall q | 0 < q < |t.log| :: t.log[q].actor.Run?)
    && t.log[|t.log| - 1] == Entry(Put(StateKey(job), DONE), Run(0))
    && t.log[|t.log| - 2] == Entry(Put(OutputKey(job), second), Run(1))
    && StateKey(job) in t.store && t.store[StateKey(job)] == DONE
    && OutputKey(job) in t.store && t.store[OutputKey(job)] == second
  }

  lemma RunsOverlap(cfg: Config, job: string, command: string, first: string, second: string)
    returns (steps: seq<Step>, t: State)
    requires cfg.slots >= 2 && cfg.runnable(command)
    ensures After(cfg, Boot(cfg, map[JobKey(job) := command], [], 0), steps) == Some(t)
    ensures IsOverlap(cfg, t, job, first, second)
  {
    var s0 := Boot(cfg, map[JobKey(job) := command], [], 0);
    var m: State, more: seq<Step>;
    steps, m := BothSourcesSend(cfg, job, command);
    OneJob(cfg, job, command);
    more, t := TwoWorkersFetch(cfg, m, job);
    AfterJoined(cfg, s0, steps, m, more, t);
    steps, m := steps + more, t;
    more, t := TwoWorkersRun(cfg, m, job, first, second);
    AfterJoined(cfg, s0, steps, m, more, t);
    steps := steps + more;
  }

  lemma AllShow(decode: Decoder, store: Store, log: seq<Entry>, job: string, output: string)
    requires '/' !in job && StateKey(job) != OutputKey(job) && |log| >= 2
    requires log[|log| - 1].event == Put(StateKey(job), DONE) && log[|log| - 2].event == Put(OutputKey(job), output)
    requires StateKey(job) in store && store[StateKey(job)] == DONE
    requires OutputKey(job) in store && store[OutputKey(job)] == output
    ensures forall snapshot | IsSnapshot(store, snapshot) ::
      var shown := Get(Absorb(decode, map[], snapshot), job); shown.status == DONE && shown.stdouterr == output
    ensures forall jobs ::
      var shown := Get(Absorb(decode, jobs, Events(log)), job); shown.status == DONE && shown.stdouterr == output
  {
    forall snapshot | IsSnapshot(store, snapshot)
      ensures var shown := Get(Absorb(decode, map[], snapshot), job); shown.status == DONE && shown.stdouterr == output
    {
      SnapshotFields(decode, map[], store, snapshot, job);
    }
    forall jobs
      ensures var shown := Get(Absorb(decode, jobs, Events(log)), job);
              shown.status == DONE && shown.stdouterr == output
    {
      LastWriterWins(decode, jobs, Events(log), job);
      LastPutIs(log, StateKey(job), Get(jobs, job).status, |log| - 1);
      LastPutIs(log, OutputKey(job), Get(jobs, job).stdouterr, |log| - 2);
    }
  }

  lemma TwoWorkersRun(cfg: Config, s: State, job: string, first: string, second: string)
    returns (steps: seq<Step>, t: State)
    requires |s.workers| >= 2 && s.workers[0] == NewRun(0, job) && s.workers[1] == NewRun(1, job)
    ensures After(cfg, s, steps) == Some(t) && |t.workers| == |s.workers|
    ensures exists cleared :: t.workers[0] == At(Judged, 0, Attempt(job, cleared, first, true))
    ensures exists cleared :: t.workers[1] == At(Printed, 1, Attempt(job, cleared, second, false))
    ensures s.log <= t.log && |t.log| >= |s.log| + 2
    ensures forall q | |s.log| <= q < |t.log| :: t.log[q].actor.Run?
    ensures t.log[|t.log| - 1] == Entry(Put(StateKey(job), DONE), Run(0))
    ensures t.log[|t.log| - 2] == Entry(Put(OutputKey(job), second), Run(1))
    ensures StateKey(job) in t.store && t.store[StateKey(job)] == DONE
    ensures OutputKey(job) in t.store && t.store[OutputKey(job)] == second
  {
    var m: State, n: State, more: seq<Step>;
    KeysOfOneJob(cfg, job);
    steps, m := PrintsOutput(cfg, s, 0, first, true);
    more, n := PrintsOutput(cfg, m, 1, second, false);
    AfterJoined(cfg, s, steps, m, more, n);
    steps, t := Then(cfg, s, steps + more, n, Judge(0));
  }
}
