/** Pieces of which runs of the older server can be put together, from a start to a verdict. */
module JobScenarios {
  import opened Etcd
  import opened JobRunner

  lemma {:induction false} AfterJoined(cfg: Config, s: State, a: seq<Step>, m: State, b: seq<Step>, t: State)
    requires After(cfg, s, a) == Some(m) && After(cfg, m, b) == Some(t)
    ensures After(cfg, s, a + b) == Some(t)
    decreases |a|
  {
    if a == [] {
      assert a + b == b;
    } else {
      AfterJoined(cfg, Do(cfg, s, a[0]), a[1..], m, b, t);
      assert (a + b)[1..] == a[1..] + b;
    }
  }

  /** One more step. */
  lemma Then(cfg: Config, s: State, steps: seq<Step>, m: State, step: Step) returns (more: seq<Step>, t: State)
    requires After(cfg, s, steps) == Some(m) && Enabled(cfg, m, step)
    ensures more == steps + [step] && t == Do(cfg, m, step) && After(cfg, s, more) == Some(t)
  {
    more, t := steps + [step], Do(cfg, m, step);
    assert [step][1..] == [] && After(cfg, t, []) == Some(t);
    AfterJoined(cfg, s, steps, m, [step], t);
  }

  function NewRun(run: nat, job: string): Worker {
    At(Fetched, run, Attempt(job, false, "", false))
  }

  /** A store with one job, assigned and not yet run. */
  function Ready(cfg: Config, job: string, command: string): Store {
    map[JobKey(job) := command, AssignKey(cfg.server, job) := ""]
  }

  lemma OneJob(cfg: Config, job: string, command: string)
    ensures DirJobs(cfg.server, Ready(cfg, job, command)) == {job}
    ensures JobKey(job) != AssignKey(cfg.server, job)
  {
    var store := Ready(cfg, job, command);
    JobKeysAreNotAssigned(cfg.server, job, "");
    assert JobKey(job) + "" == JobKey(job);
    JobOfAssignKey(cfg.server, job);
    forall other
      ensures other in DirJobs(cfg.server, store) <==> other == job
    {
      DirJobsAreKeys(cfg.server, store, other);
      JobOfAssignKey(cfg.server, other);
    }
  }

  /** A start on a store with one runnable job assigned: the first worker gets it from the listing. */
  lemma StartsRun(cfg: Config, s: State, job: string) returns (steps: seq<Step>, t: State)
    requires s == Boot(cfg, s.store, s.log, s.runs) && cfg.slots >= 1
    requires DirJobs(cfg.server, s.store) == {job}
    requires JobKey(job) in s.store && cfg.runnable(s.store[JobKey(job)])
    ensures After(cfg, s, steps) == Some(t) && t.store == s.store && t.log == s.log && t.runs == s.runs + 1
    ensures |t.workers| == cfg.slots && t.workers[0] == NewRun(s.runs, job)
  {
    var m: State;
    assert After(cfg, s, []) == Some(s);
    assert (set j | j in [job]) == {job};
    steps, m := Then(cfg, s, [], s, OpenWatch);
    steps, m := Then(cfg, s, steps, m, ListJobs([job]));
    steps, m := Then(cfg, s, steps, m, SendListed);
    steps, m := Then(cfg, s, steps, m, Take(0));
    steps, t := Then(cfg, s, steps, m, Fetch(0));
  }

  /** What a run writes up to its output. */
  function UntilPrinted(store: Store, job: string, output: string): seq<Event> {
    (if OutputKey(job) in store then [Delete(OutputKey(job))] else [])
    + [Put(StateKey(job), RUNNING), Put(OutputKey(job), output)]
  }

  function By(run: nat, events: seq<Event>): seq<Entry> {
    seq(|events|, i requires 0 <= i < |events| => Entry(events[i], Run(run)))
  }

  /** A run up to its output. */
  lemma PrintsOutput(cfg: Config, s: State, i: nat, output: string, ok: bool) returns (steps: seq<Step>, t: State)
    requires InPhase(s, i, Fetched)
    ensures steps == [Clear(i), Mark(i), Execute(i, output, ok), Print(i)]
    ensures After(cfg, s, steps) == Some(t) && t.runs == s.runs
    ensures var job := s.workers[i].attempt.job;
      && t.workers == s.workers[i := At(Printed, s.workers[i].run, Attempt(job, OutputKey(job) in s.store, output, ok))]
      && t.store == s.store[StateKey(job) := RUNNING][OutputKey(job) := output]
      && t.log == s.log + By(s.workers[i].run, UntilPrinted(s.store, job, output))
  {
    var m: State;
    steps, m := IsMarked(cfg, s, i);
    steps, m := Then(cfg, s, steps, m, Execute(i, output, ok));
    steps, t := Then(cfg, s, steps, m, Print(i));
  }

  lemma IsMarked(cfg: Config, s: State, i: nat) returns (steps: seq<Step>, t: State)
    requires InPhase(s, i, Fetched)
    ensures steps == [Clear(i), Mark(i)] && After(cfg, s, steps) == Some(t) && t.runs == s.runs
    ensures var w, job := s.workers[i], s.workers[i].attempt.job;
      && t.workers == s.workers[i := At(Marked, w.run, w.attempt.(cleared := OutputKey(job) in s.store))]
      && t.store == (s.store - {OutputKey(job)})[StateKey(job) := RUNNING]
      && t.log == s.log + (if OutputKey(job) in s.store then [Entry(Delete(OutputKey(job)), Run(w.run))] else [])
                        + [Entry(Put(StateKey(job), RUNNING), Run(w.run))]
  {
    var m: State;
    assert After(cfg, s, []) == Some(s);
    steps, m := Then(cfg, s, [], s, Clear(i));
    steps, t := Then(cfg, s, steps, m, Mark(i));
  }

  lemma KeysOfOneJob(cfg: Config, job: string)
    ensures JobKey(job) != StateKey(job) && JobKey(job) != OutputKey(job) && StateKey(job) != OutputKey(job)
    ensures !(AssignDir(cfg.server) <= StateKey(job)) && !(AssignDir(cfg.server) <= OutputKey(job))
    ensures !(AssignDir(cfg.server) <= JobKey(job)) && AssignDir(cfg.server) <= AssignKey(cfg.server, job)
  {
    assert |JobKey(job)| < |StateKey(job)| < |OutputKey(job)|;
    JobKeysAreNotAssigned(cfg.server, job, "");
    JobKeysAreNotAssigned(cfg.server, job, "/state");
    JobKeysAreNotAssigned(cfg.server, job, "/state" + "/stdouterr");
    assert OutputKey(job) == JobKey(job) + ("/state" + "/stdouterr") && JobKey(job) == JobKey(job) + "";
  }

  /** The store when the job has been run and judged. */
  function OnceRun(store: Store, job: string, output: string): Store {
    store[StateKey(job) := RUNNING][OutputKey(job) := output][StateKey(job) := DONE]
  }

  function OnceLogged(job: string, output: string): seq<Entry> {
    By(0, [Put(StateKey(job), RUNNING), Put(OutputKey(job), output), Put(StateKey(job), DONE)])
  }

  /** A start with one job, which is run and judged. */
  lemma JudgesOnce(cfg: Config, job: string, command: string, output: string) returns (steps: seq<Step>, t: State)
    requires cfg.slots >= 1 && cfg.runnable(command)
    ensures After(cfg, Boot(cfg, Ready(cfg, job, command), [], 0), steps) == Some(t)
    ensures t.store == OnceRun(Ready(cfg, job, command), job, output) && t.log == OnceLogged(job, output) && t.runs == 1
    ensures InPhase(t, 0, Judged) && t.workers[0] == At(Judged, 0, Attempt(job, false, output, true))
  {
    var s0 := Boot(cfg, Ready(cfg, job, command), [], 0);
    var m: State, n: State, more: seq<Step>;
    OneJob(cfg, job, command);
    KeysOfOneJob(cfg, job);
    steps, m := StartsRun(cfg, s0, job);
    more, n := PrintsOutput(cfg, m, 0, output, true);
    AfterJoined(cfg, s0, steps, m, more, n);
    steps, t := Then(cfg, s0, steps + more, n, Judge(0));
  }
}
