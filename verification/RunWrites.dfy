/** The writes of a run one by one, and where they stand in the history. */
module RunWrites {
  import opened Etcd
  import opened JobRecovery
  import opened JobRunner

  lemma KeysDiffer(job: string, other: string, server: string)
    ensures StateKey(job) == StateKey(other) ==> job == other
    ensures OutputKey(job) == OutputKey(other) ==> job == other
    ensures StateKey(job) != OutputKey(other)
    ensures AssignKey(server, other) != StateKey(job) && AssignKey(server, other) != OutputKey(job)
  {
    var n := |JOB_PREFIX|;
    assert StateKey(job)[n..|StateKey(job)| - 6] == job && StateKey(other)[n..|StateKey(other)| - 6] == other;
    assert OutputKey(job)[n..|OutputKey(job)| - 16] == job && OutputKey(other)[n..|OutputKey(other)| - 16] == other;
    assert StateKey(job)[|StateKey(job)| - 1] == 'e' && OutputKey(other)[|OutputKey(other)| - 1] == 'r';
    assert StateKey(job)[5] == 'j' && OutputKey(job)[5] == 'j' && AssignKey(server, other)[5] == 'a';
  }

  function Start(a: Attempt): nat { if a.cleared then 1 else 0 }

  lemma WriteAt(cfg: Config, a: Attempt, n: nat)
    requires n < |Writes(cfg, a)|
    ensures Writes(cfg, a)[n] ==
      if n < Start(a) then Delete(OutputKey(a.job))
      else if n == Start(a) then Put(StateKey(a.job), RUNNING)
      else if n == Start(a) + 1 then Put(OutputKey(a.job), a.output)
      else if n == Start(a) + 2 then Put(StateKey(a.job), Verdict(a.ok))
      else Delete(AssignKey(cfg.server, a.job))
  {
  }

  /** How many writes the run has made at a moment of the history. */
  function Made(log: seq<Entry>, run: nat, at: nat): nat
    requires at <= |log|
  {
    |Trail(log[..at], run)|
  }

  lemma MadeAt(cfg: Config, log: seq<Entry>, run: nat, a: Attempt, at: nat)
    requires at <= |log| && Trail(log, run) <= Writes(cfg, a)
    ensures Made(log, run, at) <= |Writes(cfg, a)|
    ensures Trail(log[..at], run) == Writes(cfg, a)[..Made(log, run, at)]
  {
    TrailOfPrefix(log, at, run);
  }

  /** The next entry of the history, if it is the run's, is its next write. */
  lemma NextIsWrite(cfg: Config, log: seq<Entry>, run: nat, a: Attempt, at: nat)
    requires at < |log| && Trail(log, run) <= Writes(cfg, a)
    ensures log[at].actor != Run(run) ==> Made(log, run, at + 1) == Made(log, run, at)
    ensures log[at].actor == Run(run) ==>
      && Made(log, run, at + 1) == Made(log, run, at) + 1 <= |Writes(cfg, a)|
      && log[at].event == Writes(cfg, a)[Made(log, run, at)]
  {
    MadeAt(cfg, log, run, a, at + 1);
    assert log[..at + 1] == log[..at] + [log[at]];
    TrailAppend(log[..at], log[at], run);
    if log[at].actor == Run(run) {
      LastOfPrefix(Trail(log[..at], run), log[at].event, Writes(cfg, a));
    }
  }

  lemma LastOfPrefix<T>(front: seq<T>, last: T, all: seq<T>)
    requires |front| < |all| && front + [last] == all[..|front| + 1]
    ensures last == all[|front|]
  {
    assert (front + [last])[|front|] == last;
  }

  lemma MadeNoMore(log: seq<Entry>, run: nat, at: nat)
    requires at <= |log|
    ensures Made(log, run, at) <= |Trail(log, run)|
  {
    TrailOfPrefix(log, at, run);
  }

  /** Where a write of the run stands in the history. */
  lemma {:induction false} TrailEntry(log: seq<Entry>, run: nat, n: nat) returns (m: nat)
    requires n < |Trail(log, run)|
    ensures m < |log| && log[m] == Entry(Trail(log, run)[n], Run(run)) && |Trail(log[..m], run)| == n
  {
    var last := |log| - 1;
    if n < |Trail(log[..last], run)| {
      m := TrailEntry(log[..last], run, n);
      assert log[..last][..m] == log[..m];
    } else {
      m := last;
    }
  }

  /** Which of the run's writes concern the job. */
  lemma WritesOnJob(cfg: Config, a: Attempt, n: nat, job: string)
    requires n < |Writes(cfg, a)|
    ensures Writes(cfg, a)[n].key == StateKey(job) ==>
      a.job == job && (n == Start(a) || n == Start(a) + 2)
    ensures Writes(cfg, a)[n].key == OutputKey(job) ==>
      a.job == job && (n == Start(a) + 1 || (n == 0 && Writes(cfg, a)[n].Delete?))
  {
    KeysDiffer(job, a.job, cfg.server);
    KeysDiffer(a.job, job, cfg.server);
  }
}
