/** What the older server records of a job: exactly what the command of that run gave. */
module JobResults {
  import opened Etcd
  import opened JobRecovery
  import opened JobRunner
  import opened JobScenarios
  import opened RunWrites

  /** What a command gave, and for which job it was run. */
  datatype Result = Result(job: string, output: string, ok: bool)

  /** What the commands of all runs gave: read off the steps taken. */
  function Given(cfg: Config, s: State, steps: seq<Step>, before: map<nat, Result>): map<nat, Result>
    decreases |steps|
  {
    if steps == [] || !Enabled(cfg, s, steps[0]) then before
    else Given(cfg, Do(cfg, s, steps[0]), steps[1..], Now(cfg, s, steps[0], before))
  }

  function Now(cfg: Config, s: State, step: Step, before: map<nat, Result>): map<nat, Result>
    requires Enabled(cfg, s, step)
  {
    match step
    case Execute(i, output, ok) => before[s.workers[i].run := Result(s.workers[i].attempt.job, output, ok)]
    case _ => before
  }

  // ---- One run

  /** From the moment a worker has found a job's command, on its own: every step in its order, whatever the command
      gives.  The store ends up with the command's output and the verdict by its success, without the assign key, and
      otherwise as it was; and the history says what was written and when. */
  lemma WholeRun(cfg: Config, s: State, i: nat, output: string, ok: bool)
    requires InPhase(s, i, Fetched)
    ensures var job, run := s.workers[i].attempt.job, Run(s.workers[i].run);
            var key, assign := "crms/job/" + job + "/state", "crms/assign/" + cfg.server + "/" + job;
            var end := After(cfg, s, [Clear(i), Mark(i), Execute(i, output, ok), Print(i), Judge(i), Remove(i)]);
      && end.Some?
      && end.value.store == s.store[key := if ok then "done" else "fail"][key + "/stdouterr" := output] - {assign}
      && end.value.log == s.log
           + (if key + "/stdouterr" in s.store then [Entry(Delete(key + "/stdouterr"), run)] else [])
           + [Entry(Put(key, "running"), run), Entry(Put(key + "/stdouterr", output), run),
              Entry(Put(key, if ok then "done" else "fail"), run)]
           + (if assign in s.store then [Entry(Delete(assign), run)] else [])
  {
    var job := s.workers[i].attempt.job;
    var m: State, n: State;
    var steps: seq<Step>;
    KeysDiffer(job, job, cfg.server);
    steps, m := PrintsOutput(cfg, s, i, output, ok);
    steps, n := Then(cfg, s, steps, m, Judge(i));
    var judged := m.log + [Entry(Put(StateKey(job), Verdict(ok)), Run(s.workers[i].run))];
    assert n.log == judged && n.store == m.store[StateKey(job) := Verdict(ok)];
    steps, m := Then(cfg, s, steps, n, Remove(i));
    assert steps == [Clear(i), Mark(i), Execute(i, output, ok), Print(i), Judge(i), Remove(i)];
    WholeStore(cfg, s.store, job, output, ok, n.store, m.store);
    WholeLog(cfg, s, job, output, ok, s.workers[i].run, m.log);
  }

  lemma WholeStore(cfg: Config, before: Store, job: string, output: string, ok: bool, judged: Store, after: Store)
    requires StateKey(job) != OutputKey(job)
    requires judged == before[StateKey(job) := RUNNING][OutputKey(job) := output][StateKey(job) := Verdict(ok)]
    requires after == judged - {AssignKey(cfg.server, job)}
    ensures var key, assign := "crms/job/" + job + "/state", "crms/assign/" + cfg.server + "/" + job;
            after == before[key := if ok then "done" else "fail"][key + "/stdouterr" := output] - {assign}
  {
    assert AssignKey(cfg.server, job) == "crms/assign/" + cfg.server + "/" + job;
  }

  lemma WholeLog(cfg: Config, s: State, job: string, output: string, ok: bool, run: nat, after: seq<Entry>)
    requires StateKey(job) != OutputKey(job) && AssignKey(cfg.server, job) != StateKey(job)
    requires AssignKey(cfg.server, job) != OutputKey(job)
    requires after == s.log + JobScenarios.By(run, UntilPrinted(s.store, job, output))
                      + [Entry(Put(StateKey(job), Verdict(ok)), Run(run))]
                      + (if AssignKey(cfg.server, job) in s.store
                         then [Entry(Delete(AssignKey(cfg.server, job)), Run(run))] else [])
    ensures var key, assign := "crms/job/" + job + "/state", "crms/assign/" + cfg.server + "/" + job;
      after == s.log
        + (if key + "/stdouterr" in s.store then [Entry(Delete(key + "/stdouterr"), Run(run))] else [])
        + [Entry(Put(key, "running"), Run(run)), Entry(Put(key + "/stdouterr", output), Run(run)),
           Entry(Put(key, if ok then "done" else "fail"), Run(run))]
        + (if assign in s.store then [Entry(Delete(assign), Run(run))] else [])
  {
    assert AssignKey(cfg.server, job) == "crms/assign/" + cfg.server + "/" + job;
  }

  // ---- All runs

  /** An entry of the history, if it puts an output or a verdict, puts what the command of its run gave. */
  predicate Fits(e: Event, job: string, run: nat, given: map<nat, Result>) {
    && (e.Put? && e.key == OutputKey(job) ==>
          run in given && given[run].job == job && e.value == given[run].output)
    && (JudgesJob(e, job) ==>
          run in given && given[run].job == job && e.value == if given[run].ok then "done" else "fail")
  }

  ghost predicate LogFits(log: seq<Entry>, given: map<nat, Result>) {
    forall q, job | 0 <= q < |log| && log[q].actor.Run? :: Fits(log[q].event, job, log[q].actor.id, given)
  }

  predicate WorkerFits(w: Worker, given: map<nat, Result>) {
    w.At? && (w.phase == Exited || w.phase == Printed || w.phase == Judged) ==>
      w.run in given && given[w.run] == Result(w.attempt.job, w.attempt.output, w.attempt.ok)
  }

  ghost predicate ResultInv(s: State, given: map<nat, Result>) {
    LogFits(s.log, given) && forall i | 0 <= i < |s.workers| :: WorkerFits(s.workers[i], given)
  }

  lemma WriteFits(cfg: Config, s: State, i: nat, w: Worker, e: Event, given: map<nat, Result>)
    requires ResultInv(s, given) && i < |s.workers| && s.workers[i].At? && WorkerFits(w, given)
    requires forall job :: Fits(e, job, s.workers[i].run, given)
    ensures ResultInv(Write(cfg, s.(workers := s.workers[i := w]), e, Run(s.workers[i].run)), given)
  {
  }

  lemma ExecuteFits(cfg: Config, s: State, i: nat, output: string, ok: bool, given: map<nat, Result>)
    requires OrderInv(cfg, s) && ResultInv(s, given) && Enabled(cfg, s, Execute(i, output, ok))
    ensures ResultInv(Do(cfg, s, Execute(i, output, ok)), Now(cfg, s, Execute(i, output, ok), given))
  {
    var w, after := s.workers[i], Now(cfg, s, Execute(i, output, ok), given);
    assert WorkerInv(cfg, s.log, s.runs, w);
    forall q, job | 0 <= q < |s.log| && s.log[q].actor.Run?
      ensures Fits(s.log[q].event, job, s.log[q].actor.id, after)
    {
      assert Fits(s.log[q].event, job, s.log[q].actor.id, given);
      if s.log[q].actor.id == w.run {
        NothingPutYet(cfg, s.log, w.run, w.attempt, q, job);
      }
    }
  }

  /** A run whose command has not ended has put neither output nor verdict. */
  lemma NothingPutYet(cfg: Config, log: seq<Entry>, run: nat, a: Attempt, q: nat, job: string)
    requires Trail(log, run) == Writes(cfg, a)[..WritesMade(Marked, a)] && q < |log| && log[q].actor == Run(run)
    ensures !(log[q].event.Put? && log[q].event.key == OutputKey(job)) && !JudgesJob(log[q].event, job)
  {
    NextIsWrite(cfg, log, run, a, q);
    MadeNoMore(log, run, q + 1);
    EarlyWrite(cfg, a, Made(log, run, q), job);
  }

  lemma EarlyWrite(cfg: Config, a: Attempt, n: nat, job: string)
    requires n < WritesMade(Marked, a)
    ensures var e := Writes(cfg, a)[n]; !(e.Put? && e.key == OutputKey(job)) && !JudgesJob(e, job)
  {
    WriteAt(cfg, a, n);
    KeysDiffer(job, a.job, cfg.server);
    KeysDiffer(a.job, job, cfg.server);
    assert RUNNING[0] != DONE[0] && RUNNING[0] != FAIL[0];
  }

  lemma StepFits(cfg: Config, s: State, step: Step, given: map<nat, Result>)
    requires OrderInv(cfg, s) && ResultInv(s, given) && Enabled(cfg, s, step)
    ensures ResultInv(Do(cfg, s, step), Now(cfg, s, step, given))
  {
    match step {
      case Clear(i) => RunFits(cfg, s, i, step, given);
      case Mark(i) => RunFits(cfg, s, i, step, given);
      case Execute(i, output, ok) => ExecuteFits(cfg, s, i, output, ok, given);
      case Print(i) => RunFits(cfg, s, i, step, given);
      case Judge(i) => RunFits(cfg, s, i, step, given);
      case Remove(i) => RunFits(cfg, s, i, step, given);
      case _ =>
    }
  }

  lemma RunFits(cfg: Config, s: State, i: nat, step: Step, given: map<nat, Result>)
    requires ResultInv(s, given) && Enabled(cfg, s, step)
    requires step == Clear(i) || step == Mark(i) || step == Print(i) || step == Judge(i) || step == Remove(i)
    ensures ResultInv(Do(cfg, s, step), given)
  {
    var w := s.workers[i];
    var own := w.attempt.job;
    assert WorkerFits(w, given);
    match step {
      case Clear(_) =>
        var e := Delete(OutputKey(own));
        var next := w.(phase := Cleared, attempt := w.attempt.(cleared := Emits(s.store, e)));
        WriteFits(cfg, s, i, next, e, given);
        assert s.workers[i := w.(attempt := next.attempt)][i := next] == s.workers[i := next];
      case Mark(_) =>
        PutFits(own, StateKey(own), RUNNING, w.run, given, cfg.server);
        WriteFits(cfg, s, i, w.(phase := Marked), Put(StateKey(own), RUNNING), given);
      case Print(_) =>
        PutFits(own, OutputKey(own), w.attempt.output, w.run, given, cfg.server);
        WriteFits(cfg, s, i, w.(phase := Printed), Put(OutputKey(own), w.attempt.output), given);
      case Judge(_) =>
        PutFits(own, StateKey(own), Verdict(w.attempt.ok), w.run, given, cfg.server);
        WriteFits(cfg, s, i, w.(phase := Judged), Put(StateKey(own), Verdict(w.attempt.ok)), given);
      case Remove(_) =>
        WriteFits(cfg, s, i, Idle, Delete(AssignKey(cfg.server, own)), given);
    }
  }

  lemma PutFits(own: string, key: string, value: string, run: nat, given: map<nat, Result>, server: string)
    requires (key == StateKey(own) && value == RUNNING) ||
             (run in given && given[run].job == own &&
              ((key == OutputKey(own) && value == given[run].output) ||
               (key == StateKey(own) && value == if given[run].ok then "done" else "fail")))
    ensures forall job :: Fits(Put(key, value), job, run, given)
  {
    assert RUNNING[0] != DONE[0] && RUNNING[0] != FAIL[0];
    forall job
      ensures Fits(Put(key, value), job, run, given)
    {
      KeysDiffer(own, job, server);
      KeysDiffer(job, own, server);
    }
  }

  lemma {:induction false} RunsFit(cfg: Config, s: State, steps: seq<Step>, t: State, given: map<nat, Result>)
    requires OrderInv(cfg, s) && ResultInv(s, given) && After(cfg, s, steps) == Some(t)
    ensures ResultInv(t, Given(cfg, s, steps, given))
    decreases |steps|
  {
    if steps != [] {
      StepFits(cfg, s, steps[0], given);
      StepKeepsOrder(cfg, s, steps[0]);
      RunsFit(cfg, Do(cfg, s, steps[0]), steps[1..], t, Now(cfg, s, steps[0], given));
    }
  }

  function AllGiven(cfg: Config, initial: Store, steps: seq<Step>): map<nat, Result> {
    Given(cfg, Boot(cfg, initial, [], 0), steps, map[])
  }

  /** Over all runs of the server, with clients and crashes: whatever output or verdict a run has put for a job is the
      output and success of the command that was executed in that run, and for that job. */
  lemma LogHoldsResults(cfg: Config, initial: Store, steps: seq<Step>, t: State)
    requires After(cfg, Boot(cfg, initial, [], 0), steps) == Some(t)
    ensures LogFits(t.log, AllGiven(cfg, initial, steps))
  {
    FirstBoot(cfg, initial);
    RunsFit(cfg, Boot(cfg, initial, [], 0), steps, t, map[]);
  }

  /** So the attempt that a judged run's writes tell of is what its command gave. */
  lemma AttemptIsGiven(cfg: Config, log: seq<Entry>, run: nat, a: Attempt, given: map<nat, Result>)
    requires LogFits(log, given) && Trail(log, run) <= Writes(cfg, a) && |Trail(log, run)| >= RunWrites.Start(a) + 3
    ensures run in given && given[run] == Result(a.job, a.output, a.ok)
  {
    var n := RunWrites.Start(a);
    var m := TrailEntry(log, run, n + 1);
    var p := TrailEntry(log, run, n + 2);
    WriteAt(cfg, a, n + 1);
    WriteAt(cfg, a, n + 2);
    assert Fits(log[m].event, a.job, run, given) && Fits(log[p].event, a.job, run, given);
    assert DONE[0] != FAIL[0];
  }
}
