/** Server, store and client together: a client that shows a verdict on a job in its first run shows that run's
    output as well, however late the events reach it. */
module OutputBeforeVerdict {
  import opened Etcd
  import opened JobRunner
  import opened JobRecovery
  import opened JobCache
  import opened JobResults
  import opened RunWrites

  /** A client: its cache, and how much of the store's history its watch has delivered. */
  datatype Watcher = Watcher(jobs: Jobs, delivered: nat)

  datatype WatcherStep =
    | Deliver
    | Refresh(at: nat, snapshot: seq<Event>)  // reads all jobs again, at some moment of the history

  predicate IsDelivery(log: seq<Entry>, c: Watcher, step: WatcherStep) {
    step.Deliver? && c.delivered < |log|
  }

  ghost predicate IsRefresh(initial: Store, log: seq<Entry>, step: WatcherStep) {
    step.Refresh? && step.at <= |log| && IsSnapshot(Replay(initial, Events(log[..step.at])), step.snapshot)
  }

  ghost predicate WatcherCan(initial: Store, log: seq<Entry>, c: Watcher, step: WatcherStep) {
    IsDelivery(log, c, step) || IsRefresh(initial, log, step)
  }

  ghost function WatcherDo(decode: Decoder, initial: Store, log: seq<Entry>, c: Watcher, step: WatcherStep): Watcher
    requires WatcherCan(initial, log, c, step)
  {
    match step
    case Deliver => Watcher(Handle(decode, c.jobs, log[c.delivered].event), c.delivered + 1)
    case Refresh(_, snapshot) => c.(jobs := Absorb(decode, c.jobs, snapshot))
  }

  ghost function WatcherAfter(decode: Decoder, initial: Store, log: seq<Entry>, c: Watcher, steps: seq<WatcherStep>)
    : Option<Watcher>
    decreases |steps|
  {
    if steps == [] then Some(c)
    else if WatcherCan(initial, log, c, steps[0]) then
      WatcherAfter(decode, initial, log, WatcherDo(decode, initial, log, c, steps[0]), steps[1..])
    else None
  }

  /** How far into the history the client has looked, at most. */
  function Seen(delivered: nat, steps: seq<WatcherStep>): nat
    decreases |steps|
  {
    if steps == [] then delivered
    else
      match steps[0]
      case Deliver => Seen(delivered + 1, steps[1..])
      case Refresh(at, _) =>
        var later := Seen(delivered, steps[1..]);
        if at < later then later else at
  }

  /** What it has not looked at does not matter to it. */
  lemma {:induction false} SeenIsEnough(decode: Decoder, initial: Store, log: seq<Entry>, seen: nat, c: Watcher,
                                        steps: seq<WatcherStep>, d: Watcher)
    requires WatcherAfter(decode, initial, log, c, steps) == Some(d) && c.delivered <= |log|
    requires Seen(c.delivered, steps) <= seen <= |log|
    ensures WatcherAfter(decode, initial, log[..seen], c, steps) == Some(d)
    ensures c.delivered <= d.delivered <= seen
    decreases |steps|
  {
    if steps != [] {
      if steps[0].Refresh? {
        assert log[..seen][..steps[0].at] == log[..steps[0].at];
      } else {
        SeenIsLater(c.delivered + 1, steps[1..]);
      }
      SeenIsEnough(decode, initial, log, seen, WatcherDo(decode, initial, log, c, steps[0]), steps[1..], d);
    }
  }

  lemma {:induction false} SeenIsLater(delivered: nat, steps: seq<WatcherStep>)
    ensures delivered <= Seen(delivered, steps)
    decreases |steps|
  {
    if steps != [] {
      SeenIsLater(if steps[0].Deliver? then delivered + 1 else delivered, steps[1..]);
    }
  }

  /** On a key that only one run writes, the whole history and that run's writes come to the same. */
  lemma {:induction false} ReplayOnKey(initial: Store, log: seq<Entry>, run: nat, key: string)
    requires forall p | 0 <= p < |log| && log[p].event.key == key :: log[p].actor == Run(run)
    ensures var all, own := Replay(initial, Events(log)), Replay(initial, Trail(log, run));
            (key in all <==> key in own) && (key in all ==> all[key] == own[key])
  {
    if log != [] {
      var front, last := log[..|log| - 1], log[|log| - 1];
      ReplayOnKey(initial, front, run, key);
      EventsOfLast(initial, log);
      TrailOfLast(initial, log, run);
      assert last.event.key == key ==> last.actor == Run(run);
    }
  }

  lemma TrailOfLast(initial: Store, log: seq<Entry>, run: nat)
    requires log != []
    ensures var front, last := Trail(log[..|log| - 1], run), log[|log| - 1];
            Replay(initial, Trail(log, run)) ==
            if last.actor == Run(run) then Apply(Replay(initial, front), last.event) else Replay(initial, front)
  {
    var front, last := Trail(log[..|log| - 1], run), log[|log| - 1];
    assert front + [] == front;
    ReplayAppend(initial, front, last.event);
  }

  lemma EventsOfLast(initial: Store, log: seq<Entry>)
    requires log != []
    ensures var front, last := log[..|log| - 1], log[|log| - 1];
            Replay(initial, Events(log)) == Apply(Replay(initial, Events(front)), last.event)
  {
    var front, last := log[..|log| - 1], log[|log| - 1];
    assert Events(log) == Events(front) + [last.event];
    ReplayAppend(initial, Events(front), last.event);
  }

  /** What a store shows of a run that has made n writes. */
  ghost predicate Shows(a: Attempt, n: nat, st: Store) {
    var c := Start(a);
    && (OutputKey(a.job) in st <==> n >= c + 2)
    && (n >= c + 2 ==> st[OutputKey(a.job)] == a.output)
    && (StateKey(a.job) in st <==> n >= c + 1)
    && (n >= c + 1 ==> st[StateKey(a.job)] == if n >= c + 3 then Verdict(a.ok) else RUNNING)
  }

  /** What the first n writes of a run leave under the job's two keys, when nothing was there before. */
  lemma {:induction false} StoreAfterWrites(cfg: Config, initial: Store, a: Attempt, n: nat)
    requires n <= |Writes(cfg, a)| && StateKey(a.job) !in initial && OutputKey(a.job) !in initial
    ensures Shows(a, n, Replay(initial, Writes(cfg, a)[..n]))
  {
    if n > 0 {
      StoreAfterWrites(cfg, initial, a, n - 1);
      StoreAfterNext(cfg, initial, a, n - 1);
    }
  }

  lemma StoreAfterNext(cfg: Config, initial: Store, a: Attempt, n: nat)
    requires n < |Writes(cfg, a)| && Shows(a, n, Replay(initial, Writes(cfg, a)[..n]))
    ensures Shows(a, n + 1, Replay(initial, Writes(cfg, a)[..n + 1]))
  {
    NextWrite(cfg, a, n);
    ReplayAppend(initial, Writes(cfg, a)[..n], Writes(cfg, a)[n]);
    WriteShows(cfg, a, Replay(initial, Writes(cfg, a)[..n]), n);
  }

  lemma WriteShows(cfg: Config, a: Attempt, st: Store, n: nat)
    requires n < |Writes(cfg, a)| && Shows(a, n, st)
    ensures Shows(a, n + 1, Apply(st, Writes(cfg, a)[n]))
  {
    KeysDiffer(a.job, a.job, cfg.server);
    WriteAt(cfg, a, n);
  }

  /** Only this run has written the job's state and output: the job is in its first run. */
  ghost predicate OnlyRun(initial: Store, log: seq<Entry>, run: nat, job: string) {
    && StateKey(job) !in initial && OutputKey(job) !in initial
    && forall p | 0 <= p < |log| && (log[p].event.key == StateKey(job) || log[p].event.key == OutputKey(job)) ::
         log[p].actor == Run(run)
  }

  /** The cache shows the output of the run as soon as it has been delivered, and never a verdict without it. */
  ghost predicate ShowsOutput(log: seq<Entry>, run: nat, a: Attempt, job: string, c: Watcher)
    requires c.delivered <= |log|
  {
    var shown := Get(c.jobs, job);
    && (a.job == job && Made(log, run, c.delivered) >= Start(a) + 2 ==> shown.stdouterr == a.output)
    && (IsVerdict(shown.status) ==>
          HasJudged(log, run, a) && a.job == job && shown.status == Verdict(a.ok) && shown.stdouterr == a.output)
  }

  /** The run has written its verdict. */
  predicate HasJudged(log: seq<Entry>, run: nat, a: Attempt) {
    |Trail(log, run)| >= RunWrites.Start(a) + 3
  }

  lemma VerdictsAreNoOtherStatus()
    ensures !IsVerdict(RUNNING) && !IsVerdict(NEW)
  {
    assert RUNNING[0] == 'r' && NEW[0] == 'n' && DONE[0] == 'd' && FAIL[0] == 'f';
  }

  lemma DeliverShows(cfg: Config, decode: Decoder, initial: Store, log: seq<Entry>, run: nat, a: Attempt, job: string,
                     c: Watcher)
    requires '/' !in job && Trail(log, run) <= Writes(cfg, a) && OnlyRun(initial, log, run, job)
    requires c.delivered < |log| && ShowsOutput(log, run, a, job, c)
    ensures ShowsOutput(log, run, a, job, Watcher(Handle(decode, c.jobs, log[c.delivered].event), c.delivered + 1))
  {
    var before, after := Get(c.jobs, job), Get(Handle(decode, c.jobs, log[c.delivered].event), job);
    HandleFields(decode, c.jobs, log[c.delivered].event, job);
    NextOnJob(cfg, initial, log, run, a, job, c.delivered);
    NextShows(log[c.delivered].event, a, job, before, after, Made(log, run, c.delivered),
              Made(log, run, c.delivered + 1), HasJudged(log, run, a));
  }

  lemma NextShows(e: Event, a: Attempt, job: string, before: JobView, after: JobView, n: nat, m: nat, judged: bool)
    requires after.status == (if e.Put? && e.key == StateKey(job) then e.value else before.status)
    requires after.stdouterr == (if e.Put? && e.key == OutputKey(job) then e.value else before.stdouterr)
    requires IsNext(e, a, job, n, m, judged) && StateKey(job) != OutputKey(job)
    requires a.job == job && n >= RunWrites.Start(a) + 2 ==> before.stdouterr == a.output
    requires IsVerdict(before.status) ==>
      judged && a.job == job && before.status == Verdict(a.ok) && before.stdouterr == a.output
    ensures a.job == job && m >= RunWrites.Start(a) + 2 ==> after.stdouterr == a.output
    ensures IsVerdict(after.status) ==>
      judged && a.job == job && after.status == Verdict(a.ok) && after.stdouterr == a.output
  {
    VerdictsAreNoOtherStatus();
  }

  /** A job's two keys are written by the run only, each write in its place. */
  predicate IsNext(e: Event, a: Attempt, job: string, n: nat, m: nat, judged: bool) {
    var c := RunWrites.Start(a);
    && (e.key == StateKey(job) ==>
          e.Put? && a.job == job &&
          ((n == c && m == c + 1 && e.value == RUNNING) || (n == c + 2 && e.value == Verdict(a.ok) && judged)))
    && (e.Put? && e.key == OutputKey(job) ==> a.job == job && n == c + 1 && e.value == a.output)
    && (a.job == job && m >= c + 2 && n < c + 2 ==> e == Put(OutputKey(job), a.output))
  }

  /** The next entry of the history in a job's first run. */
  lemma NextOnJob(cfg: Config, initial: Store, log: seq<Entry>, run: nat, a: Attempt, job: string, at: nat)
    requires Trail(log, run) <= Writes(cfg, a) && OnlyRun(initial, log, run, job) && at < |log|
    ensures IsNext(log[at].event, a, job, Made(log, run, at), Made(log, run, at + 1), HasJudged(log, run, a))
    ensures StateKey(job) != OutputKey(job)
  {
    KeysDiffer(job, job, cfg.server);
    NextIsWrite(cfg, log, run, a, at);
    MadeNoMore(log, run, at + 1);
    if log[at].actor == Run(run) {
      WritesOnJob(cfg, a, Made(log, run, at), job);
    }
  }

  lemma RefreshShows(cfg: Config, decode: Decoder, initial: Store, log: seq<Entry>, run: nat, a: Attempt, job: string,
                     c: Watcher, at: nat, snapshot: seq<Event>)
    requires '/' !in job && Trail(log, run) <= Writes(cfg, a) && OnlyRun(initial, log, run, job)
    requires c.delivered <= |log| && at <= |log| && IsSnapshot(Replay(initial, Events(log[..at])), snapshot)
    requires ShowsOutput(log, run, a, job, c)
    ensures ShowsOutput(log, run, a, job, c.(jobs := Absorb(decode, c.jobs, snapshot)))
    ensures a.job == job && Made(log, run, at) >= Start(a) + 2 ==>
      Get(Absorb(decode, c.jobs, snapshot), job).stdouterr == a.output
  {
    var store := Replay(initial, Events(log[..at]));
    SnapshotFields(decode, c.jobs, store, snapshot, job);
    VerdictsAreNoOtherStatus();
    StoredFields(cfg, initial, log, run, a, job, at);
    MadeNoMore(log, run, at);
  }

  /** What the store holds of the job at a moment of its first run. */
  lemma StoredFields(cfg: Config, initial: Store, log: seq<Entry>, run: nat, a: Attempt, job: string, at: nat)
    requires Trail(log, run) <= Writes(cfg, a) && OnlyRun(initial, log, run, job) && at <= |log|
    ensures var st, n, c := Replay(initial, Events(log[..at])), Made(log, run, at), Start(a);
      && (OutputKey(job) in st <==> a.job == job && n >= c + 2)
      && (OutputKey(job) in st ==> st[OutputKey(job)] == a.output)
      && (StateKey(job) in st <==> a.job == job && n >= c + 1)
      && (StateKey(job) in st ==> st[StateKey(job)] == if n >= c + 3 then Verdict(a.ok) else RUNNING)
  {
    MadeAt(cfg, log, run, a, at);
    ReplayOnKey(initial, log[..at], run, StateKey(job));
    ReplayOnKey(initial, log[..at], run, OutputKey(job));
    if a.job == job {
      StoreAfterWrites(cfg, initial, a, Made(log, run, at));
    } else {
      OthersLeaveTheJob(cfg, initial, a, Made(log, run, at), job);
    }
  }

  lemma {:induction false} OthersLeaveTheJob(cfg: Config, initial: Store, a: Attempt, n: nat, job: string)
    requires n <= |Writes(cfg, a)| && a.job != job && StateKey(job) !in initial && OutputKey(job) !in initial
    ensures var st := Replay(initial, Writes(cfg, a)[..n]); StateKey(job) !in st && OutputKey(job) !in st
  {
    if n > 0 {
      OthersLeaveTheJob(cfg, initial, a, n - 1, job);
      NextWrite(cfg, a, n - 1);
      ReplayAppend(initial, Writes(cfg, a)[..n - 1], Writes(cfg, a)[n - 1]);
      WritesOnJob(cfg, a, n - 1, job);
    }
  }

  lemma {:induction false} WatchersShow(cfg: Config, decode: Decoder, initial: Store, log: seq<Entry>, run: nat,
                                        a: Attempt, job: string, c: Watcher, steps: seq<WatcherStep>, d: Watcher)
    requires '/' !in job && Trail(log, run) <= Writes(cfg, a) && OnlyRun(initial, log, run, job)
    requires c.delivered <= |log| && ShowsOutput(log, run, a, job, c)
    requires WatcherAfter(decode, initial, log, c, steps) == Some(d)
    ensures d.delivered <= |log| && ShowsOutput(log, run, a, job, d)
    decreases |steps|
  {
    if steps != [] {
      match steps[0] {
        case Deliver => DeliverShows(cfg, decode, initial, log, run, a, job, c);
        case Refresh(at, snapshot) => RefreshShows(cfg, decode, initial, log, run, a, job, c, at, snapshot);
      }
      WatchersShow(cfg, decode, initial, log, run, a, job, WatcherDo(decode, initial, log, c, steps[0]), steps[1..], d);
    }
  }

  /** Take any run of the server, with clients, other jobs and crashes, and a job that, as far as a client has looked,
      only one run has touched.  The client takes a snapshot at some moment and from then on is told every event in
      order, as late as may be; it may read everything again at any time.  Whenever it shows done or fail, it shows
      the verdict and the output of that run, and these are what the command gave that was executed in it. */
  lemma VerdictComesWithOutput(cfg: Config, decode: Decoder, initial: Store, steps: seq<Step>, t: State, run: nat,
                               job: string, first: nat, snapshot: seq<Event>, later: seq<WatcherStep>, d: Watcher,
                               seen: nat) returns (a: Attempt)
    requires After(cfg, Boot(cfg, initial, [], 0), steps) == Some(t)
    requires first <= |t.log| && IsSnapshot(Replay(initial, Events(t.log[..first])), snapshot)
    requires WatcherAfter(decode, initial, t.log, Watcher(Absorb(decode, map[], snapshot), first), later) == Some(d)
    requires Seen(first, later) <= seen <= |t.log| && '/' !in job && OnlyRun(initial, t.log[..seen], run, job)
    requires IsVerdict(Get(d.jobs, job).status)
    ensures a.job == job && Trail(t.log, run) <= Writes(cfg, a)
    ensures Get(d.jobs, job).status == Verdict(a.ok) && Get(d.jobs, job).stdouterr == a.output
    ensures var given := AllGiven(cfg, initial, steps);
      && run in given && given[run].job == job
      && Get(d.jobs, job).status == (if given[run].ok then "done" else "fail")
      && Get(d.jobs, job).stdouterr == given[run].output
  {
    FirstBoot(cfg, initial);
    RunsKeepHistory(cfg, initial, Boot(cfg, initial, [], 0), steps, t);
    assert IsTrail(cfg, Trail(t.log, run));
    a :| Trail(t.log, run) <= Writes(cfg, a);
    TrailOfPrefix(t.log, seen, run);
    var connected := Watcher(Absorb(decode, map[], snapshot), first);
    SeenIsLater(first, later);
    SeenIsEnough(decode, initial, t.log, seen, connected, later, d);
    assert t.log[..seen][..first] == t.log[..first];
    ConnectedShows(cfg, decode, initial, t.log[..seen], run, a, job, first, snapshot);
    WatchersShow(cfg, decode, initial, t.log[..seen], run, a, job, connected, later, d);
    MadeNoMore(t.log, run, seen);
    LogHoldsResults(cfg, initial, steps, t);
    AttemptIsGiven(cfg, t.log, run, a, AllGiven(cfg, initial, steps));
  }

  lemma ConnectedShows(cfg: Config, decode: Decoder, initial: Store, log: seq<Entry>, run: nat, a: Attempt, job: string,
                       first: nat, snapshot: seq<Event>)
    requires '/' !in job && Trail(log, run) <= Writes(cfg, a) && OnlyRun(initial, log, run, job)
    requires first <= |log| && IsSnapshot(Replay(initial, Events(log[..first])), snapshot)
    ensures ShowsOutput(log, run, a, job, Watcher(Absorb(decode, map[], snapshot), first))
  {
    var empty := Watcher(map[], 0);
    VerdictsAreNoOtherStatus();
    assert log[..0] == [];
    assert ShowsOutput(log, run, a, job, empty);
    RefreshShows(cfg, decode, initial, log, run, a, job, empty, first, snapshot);
  }
}
