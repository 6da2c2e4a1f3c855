/** What the slot server leaves in the job nodes: the verdict of each job's own run. */
module SlotVerdicts {
  import opened Etcd
  import opened SlotServer
  import opened SlotDraining
  import JobFeed

  // ---- One job

  /** Whatever a job's run comes to is what its node says two steps later, and nothing else in the store has changed;
      a job that can be run may come to either. */
  lemma RunThenRecord(cfg: Config, s: State, i: nat, outcome: Outcome, record: JobRecord)
    requires i < |s.workers| && s.workers[i].Assigned?
    requires var key := "crms/job/" + s.workers[i].job; key in s.store && cfg.read(s.store[key]) == Some(record)
    requires record.status != Running
    ensures var t, key := After(cfg, s, [Run(i, outcome), Record(i)]), "crms/job/" + s.workers[i].job;
      && t.Some?
      && t.value.store == s.store[key := cfg.write(match outcome
                                                   case Succeeded => JobRecord(Done, record.error, record.rest)
                                                   case Failed(error) => JobRecord(Exit, error, record.rest))]
      && t.value.workers == s.workers[i := Recorded(s.workers[i].job)]
  {
    var m := Do(cfg, s, Run(i, outcome));
    var t := Do(cfg, m, Record(i));
    WhatStepsWrite(cfg, m, Record(i));
    assert [Run(i, outcome), Record(i)][1..] == [Record(i)] && [Record(i)][1..] == [];
    assert After(cfg, t, []) == Some(t);
    assert After(cfg, m, [Record(i)]) == Some(t);
  }

  // ---- All jobs

  datatype Result = Result(job: string, outcome: Outcome)

  function Outcomes(s: State, step: Step): seq<Result> {
    if step.Run? && step.slot < |s.workers| && !s.workers[step.slot].Idle?
    then [Result(s.workers[step.slot].job, step.outcome)] else []
  }

  /** What the runs came to, in the order in which they ended: read off the steps taken. */
  function Results(cfg: Config, s: State, steps: seq<Step>): seq<Result>
    decreases |steps|
  {
    if steps == [] || !Enabled(cfg, s, steps[0]) then []
    else Outcomes(s, steps[0]) + Results(cfg, Do(cfg, s, steps[0]), steps[1..])
  }

  function Of(results: seq<Result>, job: string): seq<Outcome> {
    if results == [] then []
    else Of(results[..|results| - 1], job) +
         (if results[|results| - 1].job == job then [results[|results| - 1].outcome] else [])
  }

  lemma OfAppend(results: seq<Result>, r: Result, job: string)
    ensures Of(results + [r], job) == Of(results, job) + (if r.job == job then [r.outcome] else [])
  {
    assert (results + [r])[..|results|] == results;
  }

  predicate HasRun(w: Worker, job: string) {
    (w.Ran? || w.Recorded?) && w.job == job
  }

  predicate IsRecorded(s: State, job: string) {
    job in s.finished || exists i :: 0 <= i < |s.workers| && s.workers[i] == Recorded(job)
  }

  predicate SameNode(a: Store, b: Store, job: string) {
    (JobKey(job) in a <==> JobKey(job) in b) && (JobKey(job) in a ==> a[JobKey(job)] == b[JobKey(job)])
  }

  /** One job, since a start and without any client: what has come of it so far. */
  ghost predicate VerdictInv(cfg: Config, start: Store, s: State, results: seq<Result>, job: string) {
    && (forall i | 0 <= i < |s.workers| && s.workers[i].Ran? && s.workers[i].job == job ::
          Of(results, job) == [s.workers[i].outcome])
    && (IsRecorded(s, job) ==>
          |Of(results, job)| == 1 && SameNode(s.store, Recording(cfg, start, job, Of(results, job)[0]), job))
    && (!IsRecorded(s, job) ==> SameNode(s.store, start, job))
    && (!IsRecorded(s, job) && NobodyHasRun(s.workers, job) ==> Of(results, job) == [])
  }

  predicate NobodyHasRun(workers: seq<Worker>, job: string) {
    forall i | 0 <= i < |workers| :: !HasRun(workers[i], job)
  }

  lemma NobodyBefore(workers: seq<Worker>, i: nat, w: Worker, job: string)
    requires i < |workers| && !HasRun(workers[i], job)
    ensures NobodyHasRun(workers[i := w], job) ==> NobodyHasRun(workers, job)
    ensures HasRun(w, job) ==> !NobodyHasRun(workers[i := w], job)
  {
    assert workers[i := w][i] == w;
    if NobodyHasRun(workers[i := w], job) {
      forall k | 0 <= k < |workers|
        ensures !HasRun(workers[k], job)
      {
        assert k != i ==> workers[k] == workers[i := w][k];
      }
    }
  }

  /** The job is in one pair of hands at most, and in none once it is finished. */
  predicate InOneHand(s: State, job: string) {
    && (forall i, k | 0 <= i < k < |s.workers| && !s.workers[i].Idle? && s.workers[i].job == job ::
          s.workers[k].Idle? || s.workers[k].job != job)
    && (job in s.finished ==> forall i | 0 <= i < |s.workers| :: s.workers[i].Idle? || s.workers[i].job != job)
  }

  lemma RunKeepsVerdict(cfg: Config, start: Store, s: State, i: nat, outcome: Outcome, results: seq<Result>,
                        job: string)
    requires VerdictInv(cfg, start, s, results, job) && InOneHand(s, job) && Enabled(cfg, s, Run(i, outcome))
    ensures VerdictInv(cfg, start, Do(cfg, s, Run(i, outcome)), results + [Result(s.workers[i].job, outcome)], job)
  {
    OfAppend(results, Result(s.workers[i].job, outcome), job);
    NobodyBefore(s.workers, i, Ran(s.workers[i].job, outcome), job);
    OtherKeepsRecorded(cfg, s, i, Ran(s.workers[i].job, outcome), job);
  }

  lemma OtherKeepsRecorded(cfg: Config, s: State, i: nat, w: Worker, job: string)
    requires i < |s.workers| && !s.workers[i].Recorded? && !w.Recorded?
    ensures IsRecorded(s.(workers := s.workers[i := w]), job) <==> IsRecorded(s, job)
  {
    var t := s.(workers := s.workers[i := w]);
    if k :| 0 <= k < |s.workers| && s.workers[k] == Recorded(job) {
      assert t.workers[k] == Recorded(job);
    }
  }

  lemma RecordKeepsVerdict(cfg: Config, start: Store, s: State, i: nat, results: seq<Result>, job: string)
    requires VerdictInv(cfg, start, s, results, job) && InOneHand(s, job) && Enabled(cfg, s, Record(i))
    ensures VerdictInv(cfg, start, Do(cfg, s, Record(i)), results, job)
  {
    var own, t := s.workers[i].job, Do(cfg, s, Record(i));
    WhatStepsWrite(cfg, s, Record(i));
    JobKeysDiffer(own, job);
    assert t.workers == s.workers[i := Recorded(own)];
    if own == job {
      assert t.workers[i] == Recorded(job);
      assert !IsRecorded(s, job);
    } else {
      NobodyBefore(s.workers, i, Recorded(own), job);
      if k :| 0 <= k < |s.workers| && s.workers[k] == Recorded(job) {
        assert t.workers[k] == Recorded(job);
      }
    }
  }

  lemma JobKeysDiffer(a: string, b: string)
    ensures JobKey(a) == JobKey(b) ==> a == b
    ensures "crms/job/" + a == JobKey(a)
  {
    assert JobKey(a)[|JOB_PREFIX|..] == a && JobKey(b)[|JOB_PREFIX|..] == b;
  }

  lemma RemoveKeepsVerdict(cfg: Config, start: Store, s: State, i: nat, results: seq<Result>, job: string)
    requires VerdictInv(cfg, start, s, results, job) && InOneHand(s, job) && Enabled(cfg, s, Remove(i))
    ensures VerdictInv(cfg, start, Do(cfg, s, Remove(i)), results, job)
  {
    var own, t := s.workers[i].job, Do(cfg, s, Remove(i));
    WhatStepsWrite(cfg, s, Remove(i));
    assert JobKey(job)[5] == 'j' && ("crms/assign/" + cfg.server + "/" + own)[5] == 'a';
    assert t.workers == s.workers[i := Idle] && t.finished == s.finished + [own];
    if own == job {
      assert s.workers[i] == Recorded(job);
    } else {
      NobodyBefore(s.workers, i, Idle, job);
      if k :| 0 <= k < |s.workers| && s.workers[k] == Recorded(job) {
        assert t.workers[k] == Recorded(job);
      }
    }
  }

  lemma TakeKeepsVerdict(cfg: Config, start: Store, s: State, i: nat, results: seq<Result>, job: string)
    requires VerdictInv(cfg, start, s, results, job) && Enabled(cfg, s, Take(i))
    ensures VerdictInv(cfg, start, Do(cfg, s, Take(i)), results, job)
  {
    NobodyBefore(s.workers, i, Assigned(s.feed.queue[0]), job);
    OtherKeepsRecorded(cfg, s, i, Assigned(s.feed.queue[0]), job);
  }

  lemma StepKeepsVerdict(cfg: Config, start: Store, s: State, step: Step, results: seq<Result>, job: string)
    requires VerdictInv(cfg, start, s, results, job) && InOneHand(s, job)
    requires Enabled(cfg, s, step) && IsServerStep(step)
    ensures VerdictInv(cfg, start, Do(cfg, s, step), results + Outcomes(s, step), job)
  {
    assert results + [] == results;
    match step {
      case Take(i) => TakeKeepsVerdict(cfg, start, s, i, results, job);
      case Run(i, outcome) => RunKeepsVerdict(cfg, start, s, i, outcome, results, job);
      case Record(i) => RecordKeepsVerdict(cfg, start, s, i, results, job);
      case Remove(i) => RemoveKeepsVerdict(cfg, start, s, i, results, job);
      case _ =>
    }
  }

  // ---- A job is in one pair of hands

  lemma {:induction false} HeldCounts(workers: seq<Worker>, job: string, i: nat)
    requires i < |workers| && !workers[i].Idle? && workers[i].job == job
    ensures Held(workers)[job] >= 1
    ensures (exists k :: i < k < |workers| && !workers[k].Idle? && workers[k].job == job) ==> Held(workers)[job] >= 2
  {
    var last := |workers| - 1;
    if i < last {
      HeldCounts(workers[..last], job, i);
      if k :| i < k < last && !workers[k].Idle? && workers[k].job == job {
        assert workers[..last][k] == workers[k];
      }
    }
  }

  lemma AloneIsInOneHand(cfg: Config, start: Store, s: State, job: string)
    requires Inv(cfg, s) && Accounted(s) && Alone(cfg, start, s)
    ensures InOneHand(s, job)
  {
    AloneCounts(cfg, start, s, job);
    forall i | 0 <= i < |s.workers| && !s.workers[i].Idle? && s.workers[i].job == job
      ensures job !in s.finished
      ensures forall k | i < k < |s.workers| :: s.workers[k].Idle? || s.workers[k].job != job
    {
      HeldCounts(s.workers, job, i);
    }
  }

  lemma AloneCounts(cfg: Config, start: Store, s: State, job: string)
    requires Inv(cfg, s) && Accounted(s) && Alone(cfg, start, s)
    ensures Held(s.workers)[job] + multiset(s.finished)[job] <= 1
  {
    var f := s.feed;
    JobFeed.NothingAppearsOrVanishes(cfg.server, cfg.slots, f);
    if f.listing.Some? {
      OnceEach(f.listing.value, DirJobs(cfg.server, start));
    }
    PartIsNoMore(multiset(if f.listing.Some? then f.listing.value else []), multiset(f.unsent),
                 multiset(JobFeed.PutJobs(cfg.server, f.pending)), multiset(JobFeed.Hand(f)), multiset(f.queue),
                 multiset(f.taken), multiset(JobFeed.PutJobs(cfg.server, f.events)), job);
  }

  lemma PartIsNoMore(listed: multiset<string>, a: multiset<string>, b: multiset<string>, c: multiset<string>,
                     d: multiset<string>, taken: multiset<string>, watched: multiset<string>, job: string)
    requires listed + watched == a + b + c + d + taken && watched == multiset{}
    ensures taken[job] <= listed[job]
  {
    assert (listed + watched)[job] == listed[job] + watched[job];
  }

  ghost predicate SoFar(cfg: Config, start: Store, s: State, results: seq<Result>, job: string) {
    Inv(cfg, s) && Accounted(s) && Alone(cfg, start, s) && VerdictInv(cfg, start, s, results, job)
  }

  lemma {:induction false} RunsKeepVerdict(cfg: Config, start: Store, s: State, before: seq<Result>, steps: seq<Step>,
                                           t: State, all: seq<Result>, job: string)
    requires SoFar(cfg, start, s, before, job) && all == before + Results(cfg, s, steps)
    requires After(cfg, s, steps) == Some(t) && forall step | step in steps :: IsServerStep(step)
    ensures SoFar(cfg, start, t, all, job)
    decreases |steps|
  {
    if steps == [] {
      assert all == before;
    } else {
      var step, next := steps[0], Do(cfg, s, steps[0]);
      assert IsServerStep(step);
      AloneStepKeeps(cfg, start, s, step, before, job);
      JobFeed.Regroup(before, Outcomes(s, step), Results(cfg, next, steps[1..]));
      RunsKeepVerdict(cfg, start, next, before + Outcomes(s, step), steps[1..], t, all, job);
    }
  }

  lemma AloneStepKeeps(cfg: Config, start: Store, s: State, step: Step, before: seq<Result>, job: string)
    requires SoFar(cfg, start, s, before, job)
    requires Enabled(cfg, s, step) && IsServerStep(step)
    ensures SoFar(cfg, start, Do(cfg, s, step), before + Outcomes(s, step), job)
  {
    AloneIsInOneHand(cfg, start, s, job);
    StepKeepsVerdict(cfg, start, s, step, before, job);
    StepKeeps(cfg, s, step);
    StepAccounts(cfg, s, step);
    StepStaysAlone(cfg, start, s, step);
  }

  /** A server that is left alone from its start until it is at rest has run each job that was assigned exactly once,
      and no other; the node of such a job, if it could be read, says what its run came to, and is otherwise as it was;
      all other job nodes are as they were. */
  lemma RestHasVerdicts(cfg: Config, store: Store, steps: seq<Step>, t: State, job: string)
    requires After(cfg, Start(cfg, store), steps) == Some(t) && Quiescent(t)
    requires forall step | step in steps :: IsServerStep(step)
    ensures var ends, key := Of(Results(cfg, Start(cfg, store), steps), job), "crms/job/" + job;
      |ends| == (if job in DirJobs(cfg.server, store) then 1 else 0) &&
      if ends == [] || key !in store then
        (key in t.store <==> key in store) && (key in store ==> t.store[key] == store[key])
      else
        key in t.store &&
        match cfg.read(store[key])
        case None => t.store[key] == store[key]
        case Some(record) =>
          t.store[key] == cfg.write(match ends[0]
                                    case Succeeded => JobRecord(Done, record.error, record.rest)
                                    case Failed(error) => JobRecord(Exit, error, record.rest))
  {
    var s, results := Start(cfg, store), Results(cfg, Start(cfg, store), steps);
    StartKeeps(cfg, store);
    StartsAlone(cfg, store);
    NothingHeld(s.workers);
    RunsKeepVerdict(cfg, store, s, [], steps, t, results, job);
    ListedAreFinished(cfg, store, steps, t);
    OnceEach(t.feed.listing.value, DirJobs(cfg.server, store));
    assert job in multiset(t.finished) <==> job in DirJobs(cfg.server, store);
    IdleLeavesResults(cfg, store, t, results, job);
    JobKeysDiffer(job, job);
  }

  lemma IdleLeavesResults(cfg: Config, start: Store, t: State, results: seq<Result>, job: string)
    requires VerdictInv(cfg, start, t, results, job) && Quiescent(t)
    ensures if job in t.finished then
              |Of(results, job)| == 1 && SameNode(t.store, Recording(cfg, start, job, Of(results, job)[0]), job)
            else
              Of(results, job) == [] && SameNode(t.store, start, job)
  {
    assert forall i | 0 <= i < |t.workers| :: t.workers[i] in t.workers;
    assert NobodyHasRun(t.workers, job);
  }
}
