/** Jobs that run more than once: exactly which clients show a verdict with the output of its run. */
module RepeatedRuns {
  import opened Etcd
  import opened JobRunner
  import opened JobRecovery
  import opened JobCache
  import opened JobResults
  import opened OutputBeforeVerdict
  import opened RunWrites

  predicate OnKeys(e: Event, job: string) {
    e.key == StateKey(job) || e.key == OutputKey(job)
  }

  /** Only runs have written the job's state and output. */
  predicate OnlyRuns(initial: Store, log: seq<Entry>, job: string) {
    && StateKey(job) !in initial && OutputKey(job) !in initial
    && forall q | 0 <= q < |log| && OnKeys(log[q].event, job) :: log[q].actor.Run?
  }

  /** Runs of the job do not overlap: between two of its writes to these keys, a run is alone. */
  predicate OneAtATime(log: seq<Entry>, job: string) {
    forall p, q, r | 0 <= p < q < r < |log| && OnKeys(log[p].event, job) && OnKeys(log[q].event, job) &&
                     OnKeys(log[r].event, job) && log[p].actor == log[r].actor :: log[q].actor == log[p].actor
  }

  ghost predicate Ordered(cfg: Config, log: seq<Entry>) {
    forall run: nat :: IsTrail(cfg, Trail(log, run))
  }

  predicate PutIn(log: seq<Entry>, key: string, from: nat) {
    exists q :: from <= q < |log| && IsPutTo(log[q].event, key)
  }

  /** The last put to the job's state is this verdict. */
  predicate IsLastVerdict(log: seq<Entry>, job: string, p: nat) {
    p < |log| && JudgesJob(log[p].event, job) && !PutIn(log, StateKey(job), p + 1)
  }

  // ---- Runs in the history

  /** A run's entry is the write that its place in the run's trail says. */
  lemma WriteOf(cfg: Config, log: seq<Entry>, q: nat) returns (a: Attempt, n: nat)
    requires Ordered(cfg, log) && q < |log| && log[q].actor.Run?
    ensures var run := log[q].actor.id; Trail(log, run) <= Writes(cfg, a) && n == |Trail(log[..q], run)|
    ensures n < |Trail(log, log[q].actor.id)| && n < |Writes(cfg, a)| && log[q].event == Writes(cfg, a)[n]
  {
    var run := log[q].actor.id;
    assert IsTrail(cfg, Trail(log, run));
    a :| Trail(log, run) <= Writes(cfg, a);
    n := |Trail(log[..q], run)|;
    NextIsWrite(cfg, log, run, a, q);
    MadeAt(cfg, log, run, a, q + 1);
    TrailOfPrefix(log, q + 1, run);
  }

  /** Trails grow with the history. */
  lemma TrailGrows(log: seq<Entry>, p: nat, q: nat, run: nat)
    requires p < q <= |log|
    ensures |Trail(log[..p], run)| + (if log[p].actor == Run(run) then 1 else 0) <= |Trail(log[..q], run)|
  {
    assert log[..q][..p + 1] == log[..p] + [log[p]];
    TrailOfPrefix(log[..q], p + 1, run);
    TrailAppend(log[..p], log[p], run);
  }

  /** A run's verdict on the job comes after its output, and as its next write. */
  lemma VerdictHasOutput(cfg: Config, log: seq<Entry>, job: string, p: nat) returns (a: Attempt, m: nat)
    requires Ordered(cfg, log) && p < |log| && log[p].actor.Run? && JudgesJob(log[p].event, job)
    ensures a.job == job && Trail(log, log[p].actor.id) <= Writes(cfg, a)
    ensures log[p].event == Put(StateKey(job), Verdict(a.ok))
    ensures m < p && log[m] == Entry(Put(OutputKey(job), a.output), log[p].actor)
    ensures forall k | m < k < |log| && k != p && log[k].actor == log[p].actor :: !OnKeys(log[k].event, job)
  {
    var run, n := log[p].actor.id, 0;
    a, n := WriteOf(cfg, log, p);
    VerdictsAreNoOtherStatus();
    WritesOnJob(cfg, a, n, job);
    WriteAt(cfg, a, n);
    assert n == Start(a) + 2;
    TrailOfPrefix(log, p, run);
    m := TrailEntry(log[..p], run, n - 1);
    assert log[..p][..m] == log[..m];
    WriteAt(cfg, a, n - 1);
    forall k | m < k < |log| && k != p && log[k].actor == log[p].actor
      ensures !OnKeys(log[k].event, job)
    {
      LaterWrite(cfg, log, job, m, p, k, a);
    }
  }

  lemma LaterWrite(cfg: Config, log: seq<Entry>, job: string, m: nat, p: nat, k: nat, a: Attempt)
    requires Ordered(cfg, log) && m < p < |log| && m < k < |log| && k != p
    requires log[p].actor.Run? && log[m].actor == log[k].actor == log[p].actor
    requires Trail(log, log[p].actor.id) <= Writes(cfg, a)
    requires |Trail(log[..m], log[p].actor.id)| == Start(a) + 1 && |Trail(log[..p], log[p].actor.id)| == Start(a) + 2
    ensures !OnKeys(log[k].event, job)
  {
    var run := log[p].actor.id;
    NextIsWrite(cfg, log, run, a, k);
    if k < p {
      TrailGrows(log, m, k, run);
      TrailGrows(log, k, p, run);
      assert false;
    } else {
      TrailGrows(log, p, k, run);
      WritesOnJob(cfg, a, |Trail(log[..k], run)|, job);
      WriteAt(cfg, a, |Trail(log[..k], run)|);
    }
  }

  /** Before a run puts its output, it has put the job's state. */
  lemma OutputFollowsMark(cfg: Config, log: seq<Entry>, job: string, q: nat) returns (k: nat)
    requires Ordered(cfg, log) && q < |log| && log[q].actor.Run?
    requires log[q].event.Put? && log[q].event.key == OutputKey(job)
    ensures k < q && log[k] == Entry(Put(StateKey(job), RUNNING), log[q].actor)
  {
    var a, n := WriteOf(cfg, log, q);
    WritesOnJob(cfg, a, n, job);
    WriteAt(cfg, a, n);
    WriteAt(cfg, a, n - 1);
    TrailOfPrefix(log, q, log[q].actor.id);
    k := TrailEntry(log[..q], log[q].actor.id, n - 1);
  }

  /** When runs do not overlap, the last verdict is that of the last output; what comes after the verdict can only
      delete that output. */
  lemma LastVerdictHasLastOutput(cfg: Config, initial: Store, log: seq<Entry>, job: string, p: nat)
    returns (a: Attempt, m: nat)
    requires Ordered(cfg, log) && OnlyRuns(initial, log, job) && OneAtATime(log, job) && IsLastVerdict(log, job, p)
    ensures a.job == job && Trail(log, log[p].actor.id) <= Writes(cfg, a)
    ensures log[p].event == Put(StateKey(job), Verdict(a.ok))
    ensures m < p && log[m] == Entry(Put(OutputKey(job), a.output), log[p].actor) && !PutIn(log, OutputKey(job), m + 1)
    ensures forall k | m < k < |log| && k != p && OnKeys(log[k].event, job) ::
              k > p && log[k].event == Delete(OutputKey(job))
  {
    assert OnKeys(log[p].event, job);
    a, m := VerdictHasOutput(cfg, log, job, p);
    forall k | m < k < |log| && k != p && OnKeys(log[k].event, job)
      ensures k > p && log[k].event == Delete(OutputKey(job))
    {
      AfterVerdict(cfg, initial, log, job, m, p, k);
    }
    KeysDiffer(job, job, cfg.server);
  }

  lemma AfterVerdict(cfg: Config, initial: Store, log: seq<Entry>, job: string, m: nat, p: nat, k: nat)
    requires Ordered(cfg, log) && OnlyRuns(initial, log, job) && OneAtATime(log, job) && IsLastVerdict(log, job, p)
    requires m < p && log[m].actor == log[p].actor && OnKeys(log[m].event, job) && OnKeys(log[p].event, job)
    requires m < k < |log| && k != p && OnKeys(log[k].event, job) && log[k].actor != log[p].actor
    ensures k > p && log[k].event == Delete(OutputKey(job))
  {
    if log[k].event.Put? && log[k].event.key == OutputKey(job) {
      var mark := OutputFollowsMark(cfg, log, job, k);
      assert OnKeys(log[mark].event, job);
      assert false;
    } else {
      StateIsNeverDeleted(cfg, log, job, k);
    }
  }

  lemma StateIsNeverDeleted(cfg: Config, log: seq<Entry>, job: string, k: nat)
    requires Ordered(cfg, log) && k < |log| && log[k].actor.Run?
    ensures log[k].event != Delete(StateKey(job))
  {
    var a, n := WriteOf(cfg, log, k);
    WritesOnJob(cfg, a, n, job);
    WriteAt(cfg, a, n);
  }

  // ---- What the store holds

  /** The last write to a key decides. */
  lemma {:induction false} LastWriteDecides(initial: Store, log: seq<Entry>, key: string, q: nat)
    requires q < |log| && log[q].event.key == key && forall k | q < k < |log| :: log[k].event.key != key
    ensures var st := Replay(initial, Events(log));
            (key in st <==> log[q].event.Put?) && (log[q].event.Put? ==> st[key] == log[q].event.value)
  {
    var last := |log| - 1;
    assert Events(log)[..last] == Events(log[..last]);
    if q < last {
      LastWriteDecides(initial, log[..last], key, q);
    }
  }

  lemma {:induction false} LastWriteTo(log: seq<Entry>, key: string, m: nat) returns (q: nat)
    requires m < |log| && log[m].event.key == key
    ensures m <= q < |log| && log[q].event.key == key && forall k | q < k < |log| :: log[k].event.key != key
  {
    var last := |log| - 1;
    if log[last].event.key == key {
      q := last;
    } else {
      q := LastWriteTo(log[..last], key, m);
    }
  }

  /** A run has deleted the old output and not yet put the job's state: the last entry on the job's two keys is
      that delete. */
  predicate InGap(log: seq<Entry>, job: string) {
    exists q :: 0 <= q < |log| && log[q].event == Delete(OutputKey(job)) &&
                forall k | q < k < |log| :: !OnKeys(log[k].event, job)
  }

  lemma GapHidesOutput(initial: Store, log: seq<Entry>, job: string)
    requires InGap(log, job)
    ensures OutputKey(job) !in Replay(initial, Events(log))
  {
    var q :| 0 <= q < |log| && log[q].event == Delete(OutputKey(job)) &&
             forall k | q < k < |log| :: !OnKeys(log[k].event, job);
    LastWriteDecides(initial, log, OutputKey(job), q);
  }

  /** Under a verdict, that gap is the only time when the store holds no output. */
  lemma OutputIsMissingIff(cfg: Config, initial: Store, log: seq<Entry>, job: string, p: nat)
    requires Ordered(cfg, log) && OnlyRuns(initial, log, job) && OneAtATime(log, job) && IsLastVerdict(log, job, p)
    ensures OutputKey(job) !in Replay(initial, Events(log)) <==> InGap(log, job)
  {
    if InGap(log, job) {
      GapHidesOutput(initial, log, job);
    } else {
      var a, m := LastVerdictHasLastOutput(cfg, initial, log, job, p);
      var q := LastWriteTo(log, OutputKey(job), m);
      LastWriteDecides(initial, log, OutputKey(job), q);
    }
  }

  // ---- What a client shows

  predicate IsPutTo(e: Event, key: string) {
    e.Put? && e.key == key
  }

  /** The moment as of which a client shows a key: that of the last put it was told of or the last read that found the
      key, whichever came later to the client; none if there was neither. */
  function AsOf(initial: Store, log: seq<Entry>, key: string, before: Option<nat>, delivered: nat,
                steps: seq<WatcherStep>): Option<nat>
    decreases |steps|
  {
    if steps == [] then before
    else
      match steps[0]
      case Deliver =>
        var now := if delivered < |log| && IsPutTo(log[delivered].event, key) then Some(delivered + 1) else before;
        AsOf(initial, log, key, now, delivered + 1, steps[1..])
      case Refresh(at, _) => AsOf(initial, log, key, ReadAsOf(initial, log, key, before, at), delivered, steps[1..])
  }

  function ReadAsOf(initial: Store, log: seq<Entry>, key: string, before: Option<nat>, at: nat): Option<nat> {
    if at <= |log| && key in Replay(initial, Events(log[..at])) then Some(at) else before
  }

  /** The same for a client that connects at some moment and goes on from there. */
  function KeyAsOf(initial: Store, log: seq<Entry>, key: string, first: nat, later: seq<WatcherStep>): Option<nat> {
    AsOf(initial, log, key, ReadAsOf(initial, log, key, None, first), first, later)
  }

  predicate IsStoredAsOf(initial: Store, log: seq<Entry>, key: string, asOf: Option<nat>) {
    asOf.Some? ==> asOf.value <= |log| && key in Replay(initial, Events(log[..asOf.value]))
  }

  function ValueAsOf(log: seq<Entry>, key: string, default: string, asOf: Option<nat>): string
    requires asOf.Some? ==> asOf.value <= |log|
  {
    if asOf.Some? then LastPut(Events(log[..asOf.value]), key, default) else default
  }

  ghost predicate ShowsAsOf(initial: Store, log: seq<Entry>, job: string, c: Watcher, state: Option<nat>,
                            output: Option<nat>)
  {
    && IsStoredAsOf(initial, log, StateKey(job), state) && IsStoredAsOf(initial, log, OutputKey(job), output)
    && Get(c.jobs, job).status == ValueAsOf(log, StateKey(job), NEW, state)
    && Get(c.jobs, job).stdouterr == ValueAsOf(log, OutputKey(job), "", output)
  }

  lemma {:induction false} LastPutAt(log: seq<Entry>, key: string, default: string) returns (p: Option<nat>)
    ensures p.None? ==> LastPut(Events(log), key, default) == default && !PutIn(log, key, 0)
    ensures p.Some? ==> p.value < |log| && log[p.value].event == Put(key, LastPut(Events(log), key, default)) &&
                        !PutIn(log, key, p.value + 1)
  {
    p := None;
    if log != [] {
      var last := |log| - 1;
      assert Events(log)[..last] == Events(log[..last]);
      if log[last].event.Put? && log[last].event.key == key {
        p := Some(last);
      } else {
        p := LastPutAt(log[..last], key, default);
      }
    }
  }

  lemma LastPutIs(log: seq<Entry>, key: string, default: string, m: nat)
    requires m < |log| && log[m].event.Put? && log[m].event.key == key && !PutIn(log, key, m + 1)
    ensures LastPut(Events(log), key, default) == log[m].event.value
  {
    var p := LastPutAt(log, key, default);
    assert p.Some?;
    assert p.value == m;
  }

  /** What is stored is the last put. */
  lemma {:induction false} StoredIsLastPut(initial: Store, log: seq<Entry>, key: string, default: string)
    requires key !in initial
    ensures var st := Replay(initial, Events(log)); key in st ==> st[key] == LastPut(Events(log), key, default)
    ensures key in Replay(initial, Events(log)) ==> PutIn(log, key, 0)
  {
    if log != [] {
      var last := |log| - 1;
      assert Events(log)[..last] == Events(log[..last]);
      StoredIsLastPut(initial, log[..last], key, default);
      if PutIn(log[..last], key, 0) {
        var q :| 0 <= q < last && IsPutTo(log[..last][q].event, key);
        assert log[q] == log[..last][q];
      }
    }
  }

  lemma OrderedPrefix(cfg: Config, log: seq<Entry>, n: nat)
    requires Ordered(cfg, log) && n <= |log|
    ensures Ordered(cfg, log[..n])
  {
    forall run: nat
      ensures IsTrail(cfg, Trail(log[..n], run))
    {
      assert IsTrail(cfg, Trail(log, run));
      var a :| Trail(log, run) <= Writes(cfg, a);
      TrailOfPrefix(log, n, run);
      assert Trail(log[..n], run) <= Writes(cfg, a);
    }
  }

  lemma LastPutNext(log: seq<Entry>, n: nat, key: string, default: string)
    requires n < |log|
    ensures LastPut(Events(log[..n + 1]), key, default) ==
            if log[n].event.Put? && log[n].event.key == key then log[n].event.value
            else LastPut(Events(log[..n]), key, default)
  {
    var after := log[..n + 1];
    assert after[..n] == log[..n] && after[n] == log[n];
    assert Events(after)[..n] == Events(log[..n]) && Events(after)[n] == log[n].event;
  }

  lemma PutInNext(log: seq<Entry>, key: string, from: nat, n: nat)
    requires from <= n < |log|
    ensures PutIn(log[..n + 1], key, from) <==>
            PutIn(log[..n], key, from) || (log[n].event.Put? && log[n].event.key == key)
  {
    var before, after := log[..n], log[..n + 1];
    assert after == before + [log[n]];
    if q :| from <= q < |before| && before[q].event.Put? && before[q].event.key == key {
      assert after[q] == before[q];
    }
    if log[n].event.Put? && log[n].event.key == key {
      assert after[n] == log[n];
    }
  }

  lemma RefreshShowsAsOf(decode: Decoder, initial: Store, log: seq<Entry>, job: string, c: Watcher,
                         state: Option<nat>, output: Option<nat>, at: nat, snapshot: seq<Event>)
    requires '/' !in job && StateKey(job) !in initial && OutputKey(job) !in initial && at <= |log|
    requires IsSnapshot(Replay(initial, Events(log[..at])), snapshot) && ShowsAsOf(initial, log, job, c, state, output)
    ensures ShowsAsOf(initial, log, job, c.(jobs := Absorb(decode, c.jobs, snapshot)),
                      ReadAsOf(initial, log, StateKey(job), state, at),
                      ReadAsOf(initial, log, OutputKey(job), output, at))
  {
    SnapshotFields(decode, c.jobs, Replay(initial, Events(log[..at])), snapshot, job);
    StoredIsLastPut(initial, log[..at], StateKey(job), NEW);
    StoredIsLastPut(initial, log[..at], OutputKey(job), "");
  }

  lemma DeliverShowsAsOf(decode: Decoder, initial: Store, log: seq<Entry>, job: string, c: Watcher,
                         state: Option<nat>, output: Option<nat>)
    requires '/' !in job && c.delivered < |log| && ShowsAsOf(initial, log, job, c, state, output)
    ensures var n, e := c.delivered, log[c.delivered].event;
      ShowsAsOf(initial, log, job, Watcher(Handle(decode, c.jobs, e), n + 1),
                if IsPutTo(e, StateKey(job)) then Some(n + 1) else state,
                if IsPutTo(e, OutputKey(job)) then Some(n + 1) else output)
  {
    var n, e := c.delivered, log[c.delivered].event;
    HandleFields(decode, c.jobs, e, job);
    LastPutNext(log, n, StateKey(job), NEW);
    LastPutNext(log, n, OutputKey(job), "");
    PutIsStored(initial, log, n);
  }

  lemma PutIsStored(initial: Store, log: seq<Entry>, n: nat)
    requires n < |log|
    ensures log[n].event.Put? ==> log[n].event.key in Replay(initial, Events(log[..n + 1]))
  {
    var after := log[..n + 1];
    assert Events(after)[n] == log[n].event && |Events(after)| == n + 1;
  }

  lemma {:induction false} ReadersShowAsOf(decode: Decoder, initial: Store, log: seq<Entry>, job: string, c: Watcher,
                                           state: Option<nat>, output: Option<nat>, steps: seq<WatcherStep>, d: Watcher)
    requires '/' !in job && StateKey(job) !in initial && OutputKey(job) !in initial
    requires ShowsAsOf(initial, log, job, c, state, output)
    requires WatcherAfter(decode, initial, log, c, steps) == Some(d)
    ensures ShowsAsOf(initial, log, job, d, AsOf(initial, log, StateKey(job), state, c.delivered, steps),
                      AsOf(initial, log, OutputKey(job), output, c.delivered, steps))
    decreases |steps|
  {
    if steps != [] {
      var next := WatcherDo(decode, initial, log, c, steps[0]);
      var state', output' := ReaderStepShows(decode, initial, log, job, c, state, output, steps);
      ReadersShowAsOf(decode, initial, log, job, next, state', output', steps[1..], d);
    }
  }

  lemma ReaderStepShows(decode: Decoder, initial: Store, log: seq<Entry>, job: string, c: Watcher, state: Option<nat>,
                        output: Option<nat>, steps: seq<WatcherStep>)
    returns (state': Option<nat>, output': Option<nat>)
    requires '/' !in job && StateKey(job) !in initial && OutputKey(job) !in initial
    requires ShowsAsOf(initial, log, job, c, state, output) && steps != [] && WatcherCan(initial, log, c, steps[0])
    ensures var next := WatcherDo(decode, initial, log, c, steps[0]);
      && ShowsAsOf(initial, log, job, next, state', output')
      && AsOf(initial, log, StateKey(job), state, c.delivered, steps) ==
         AsOf(initial, log, StateKey(job), state', next.delivered, steps[1..])
      && AsOf(initial, log, OutputKey(job), output, c.delivered, steps) ==
         AsOf(initial, log, OutputKey(job), output', next.delivered, steps[1..])
  {
    state' := NextAsOf(initial, log, StateKey(job), state, c.delivered, steps);
    output' := NextAsOf(initial, log, OutputKey(job), output, c.delivered, steps);
    match steps[0] {
      case Deliver => DeliverShowsAsOf(decode, initial, log, job, c, state, output);
      case Refresh(at, snapshot) => RefreshShowsAsOf(decode, initial, log, job, c, state, output, at, snapshot);
    }
  }

  lemma NextAsOf(initial: Store, log: seq<Entry>, key: string, before: Option<nat>, delivered: nat,
                 steps: seq<WatcherStep>) returns (now: Option<nat>)
    requires steps != [] && (steps[0].Deliver? ==> delivered < |log|)
    ensures now == match steps[0]
                   case Deliver => (if IsPutTo(log[delivered].event, key) then Some(delivered + 1) else before)
                   case Refresh(at, _) => ReadAsOf(initial, log, key, before, at)
    ensures AsOf(initial, log, key, before, delivered, steps) ==
            AsOf(initial, log, key, now, if steps[0].Deliver? then delivered + 1 else delivered, steps[1..])
  {
    now := match steps[0]
           case Deliver => (if IsPutTo(log[delivered].event, key) then Some(delivered + 1) else before)
           case Refresh(at, _) => ReadAsOf(initial, log, key, before, at);
  }

  /** A client of a history: it connects at some moment of it, and then is told events in order and reads the store as
      of any moments, as it comes. */
  ghost predicate IsReader(decode: Decoder, initial: Store, log: seq<Entry>, first: nat, snapshot: seq<Event>,
                           later: seq<WatcherStep>, d: Watcher)
  {
    && first <= |log| && IsSnapshot(Replay(initial, Events(log[..first])), snapshot)
    && WatcherAfter(decode, initial, log, Watcher(Absorb(decode, map[], snapshot), first), later) == Some(d)
  }

  /** What any client shows of a job, whoever has written about it: the last puts as of two moments. */
  lemma AnyReaderShowsAsOf(decode: Decoder, initial: Store, log: seq<Entry>, job: string, first: nat,
                           snapshot: seq<Event>, later: seq<WatcherStep>, d: Watcher)
    requires '/' !in job && StateKey(job) !in initial && OutputKey(job) !in initial
    requires IsReader(decode, initial, log, first, snapshot, later, d)
    ensures ShowsAsOf(initial, log, job, d, KeyAsOf(initial, log, StateKey(job), first, later),
                      KeyAsOf(initial, log, OutputKey(job), first, later))
    ensures first <= d.delivered <= |log|
  {
    var connected := Watcher(Absorb(decode, map[], snapshot), first);
    RefreshShowsAsOf(decode, initial, log, job, Watcher(map[], first), None, None, first, snapshot);
    ReadersShowAsOf(decode, initial, log, job, connected, ReadAsOf(initial, log, StateKey(job), None, first),
                    ReadAsOf(initial, log, OutputKey(job), None, first), later, d);
    DeliveredGrows(decode, initial, log, connected, later, d);
  }

  lemma {:induction false} DeliveredGrows(decode: Decoder, initial: Store, log: seq<Entry>, c: Watcher,
                                          steps: seq<WatcherStep>, d: Watcher)
    requires WatcherAfter(decode, initial, log, c, steps) == Some(d) && c.delivered <= |log|
    ensures c.delivered <= d.delivered <= |log|
    decreases |steps|
  {
    if steps != [] {
      DeliveredGrows(decode, initial, log, WatcherDo(decode, initial, log, c, steps[0]), steps[1..], d);
    }
  }

  // ---- Which clients show what they have been told

  /** The client shows of the key what its watch has told it: nothing has been put to it between the moment shown and
      the moment reached by the watch, whichever comes first. */
  predicate IsCurrent(log: seq<Entry>, key: string, asOf: Option<nat>, delivered: nat)
    requires delivered <= |log| && (asOf.Some? ==> asOf.value <= |log|)
  {
    asOf.None? ||
    if asOf.value <= delivered then !PutIn(log[..delivered], key, asOf.value)
    else !PutIn(log[..asOf.value], key, delivered)
  }

  lemma {:induction false} NothingPutSince(log: seq<Entry>, key: string, default: string, n: nat, at: nat)
    requires n <= at <= |log| && !PutIn(log, key, n)
    ensures LastPut(Events(log[..at]), key, default) == LastPut(Events(log[..n]), key, default)
    decreases at
  {
    if n < at {
      LastPutNext(log, at - 1, key, default);
      NothingPutSince(log, key, default, n, at - 1);
    }
  }

  lemma CurrentShowsLast(log: seq<Entry>, key: string, default: string, n: nat, delivered: nat)
    requires n <= |log| && delivered <= |log| && IsCurrent(log, key, Some(n), delivered)
    ensures LastPut(Events(log[..n]), key, default) == LastPut(Events(log[..delivered]), key, default)
  {
    var lo, hi := if n <= delivered then n else delivered, if n <= delivered then delivered else n;
    var part := log[..hi];
    assert part[..lo] == log[..lo] && part[..hi] == part;
    NothingPutSince(part, key, default, lo, hi);
  }

  /** The others do not: what they show is a put that another has overwritten since, of which they have been told; or
      it is one of which they have not been told yet. */
  lemma NotCurrentShows(initial: Store, log: seq<Entry>, key: string, default: string, asOf: Option<nat>,
                        delivered: nat)
    returns (x: nat, y: nat)
    requires key !in initial && delivered <= |log| && IsStoredAsOf(initial, log, key, asOf)
    requires !IsCurrent(log, key, asOf, delivered)
    ensures x < |log| && log[x].event == Put(key, ValueAsOf(log, key, default, asOf))
    ensures y < |log| && IsPutTo(log[y].event, key) && (x < y < delivered || x == y >= delivered)
  {
    var n := asOf.value;
    var part := log[..n];
    StoredIsLastPut(initial, part, key, default);
    var last := LastPutAt(part, key, default);
    x := last.value;
    if n <= delivered {
      y :| n <= y < delivered && IsPutTo(log[..delivered][y].event, key);
    } else {
      y := x;
      var q :| delivered <= q < n && IsPutTo(log[..n][q].event, key);
      assert q <= x;
    }
  }

  // ---- No output

  lemma NeverDeletedIsStored(cfg: Config, initial: Store, log: seq<Entry>, job: string)
    requires Ordered(cfg, log) && OnlyRuns(initial, log, job) && PutIn(log, StateKey(job), 0)
    ensures StateKey(job) in Replay(initial, Events(log))
  {
    var m :| 0 <= m < |log| && IsPutTo(log[m].event, StateKey(job));
    var q := LastWriteTo(log, StateKey(job), m);
    assert OnKeys(log[q].event, job);
    StateIsNeverDeleted(cfg, log, job, q);
    LastWriteDecides(initial, log, StateKey(job), q);
  }

  /** What a client shows of a job's state that knows of none: there has been none. */
  lemma NoStateMeansNew(cfg: Config, decode: Decoder, initial: Store, log: seq<Entry>, job: string, first: nat,
                        snapshot: seq<Event>, later: seq<WatcherStep>, d: Watcher)
    requires '/' !in job && Ordered(cfg, log) && OnlyRuns(initial, log, job) && d.delivered <= |log|
    requires IsReader(decode, initial, log, first, snapshot, later, d)
    requires KeyAsOf(initial, log, StateKey(job), first, later).None?
    ensures LastPut(Events(log[..d.delivered]), StateKey(job), NEW) == NEW
  {
    var key, told, connected := StateKey(job), log[..d.delivered], Watcher(Absorb(decode, map[], snapshot), first);
    DeliveredGrows(decode, initial, log, connected, later, d);
    NoneMeansNoPut(decode, initial, log, key, connected, ReadAsOf(initial, log, key, None, first), later, d);
    OrderedPrefix(cfg, log, first);
    assert told[..first] == log[..first] && told[..d.delivered] == told;
    if PutIn(log[..first], key, 0) {
      NeverDeletedIsStored(cfg, initial, log[..first], job);
    }
    NothingPutSince(told, key, NEW, first, d.delivered);
    var last := LastPutAt(log[..first], key, NEW);
  }

  ghost predicate ShowsState(log: seq<Entry>, job: string, c: Watcher)
    requires c.delivered <= |log|
  {
    Get(c.jobs, job).status == LastPut(Events(log[..c.delivered]), StateKey(job), NEW)
  }

  ghost predicate ShowsOutputPut(initial: Store, log: seq<Entry>, job: string, first: nat, c: Watcher)
    requires first <= c.delivered <= |log|
  {
    Get(c.jobs, job).stdouterr ==
      if Hidden(initial, log, job, first, c.delivered) then ""
      else LastPut(Events(log[..c.delivered]), OutputKey(job), "")
  }

  /** A client that is up to date shows the last puts it has been told of, however it came there; of the output nothing,
      if there was none when it connected and it has been told of none since. */
  lemma FollowersShowLast(cfg: Config, decode: Decoder, initial: Store, log: seq<Entry>, job: string, first: nat,
                          snapshot: seq<Event>, later: seq<WatcherStep>, d: Watcher)
    requires '/' !in job && Ordered(cfg, log) && OnlyRuns(initial, log, job)
    requires IsReader(decode, initial, log, first, snapshot, later, d)
    requires IsUpToDate(initial, log, job, first, later, d.delivered)
    ensures first <= d.delivered <= |log| && ShowsState(log, job, d)
    ensures ReadsSince(first, later) ==> ShowsOutputPut(initial, log, job, first, d)
  {
    var state := KeyAsOf(initial, log, StateKey(job), first, later);
    var output := KeyAsOf(initial, log, OutputKey(job), first, later);
    AnyReaderShowsAsOf(decode, initial, log, job, first, snapshot, later, d);
    if state.Some? {
      CurrentShowsLast(log, StateKey(job), NEW, state.value, d.delivered);
    } else {
      NoStateMeansNew(cfg, decode, initial, log, job, first, snapshot, later, d);
    }
    if output.Some? {
      CurrentShowsLast(log, OutputKey(job), "", output.value, d.delivered);
    }
    if ReadsSince(first, later) {
      NoOutputIff(decode, initial, log, job, first, snapshot, later, d);
    }
  }

  /** There was no output when the client connected, and none has been put since. */
  predicate Hidden(initial: Store, log: seq<Entry>, job: string, first: nat, delivered: nat)
    requires first <= delivered <= |log|
  {
    OutputKey(job) !in Replay(initial, Events(log[..first])) && !PutIn(log[..delivered], OutputKey(job), first)
  }

  lemma HiddenStays(initial: Store, log: seq<Entry>, job: string, first: nat, n: nat, at: nat)
    requires first <= n <= at <= |log| && !PutIn(log, OutputKey(job), n)
    ensures Hidden(initial, log, job, first, at) <==> Hidden(initial, log, job, first, n)
  {
    var key, before, after := OutputKey(job), log[..n], log[..at];
    if q :| first <= q < |before| && before[q].event.Put? && before[q].event.key == key {
      assert after[q] == before[q];
    }
    if q :| first <= q < |after| && after[q].event.Put? && after[q].event.key == key {
      assert log[q] == after[q] && q < n && before[q] == after[q];
    }
  }

  lemma {:induction false} HiddenIsNotStored(initial: Store, log: seq<Entry>, job: string, first: nat, n: nat)
    requires first <= n <= |log|
    ensures Hidden(initial, log, job, first, n) ==> OutputKey(job) !in Replay(initial, Events(log[..n]))
    decreases n
  {
    if Hidden(initial, log, job, first, n) && first < n {
      PutInNext(log, OutputKey(job), first, n - 1);
      HiddenIsNotStored(initial, log, job, first, n - 1);
      AbsentStays(initial, log, OutputKey(job), n - 1);
    }
  }

  lemma AbsentStays(initial: Store, log: seq<Entry>, key: string, n: nat)
    requires n < |log| && key !in Replay(initial, Events(log[..n])) && !(log[n].event.Put? && log[n].event.key == key)
    ensures key !in Replay(initial, Events(log[..n + 1]))
  {
    var after := log[..n + 1];
    assert after[..n] == log[..n] && after[n] == log[n];
    assert Events(after)[..n] == Events(log[..n]);
  }

  /** A key that the client shows nothing of has not been put while it was told of events. */
  lemma {:induction false} NoneMeansNoPut(decode: Decoder, initial: Store, log: seq<Entry>, key: string, c: Watcher,
                                          before: Option<nat>, steps: seq<WatcherStep>, d: Watcher)
    requires WatcherAfter(decode, initial, log, c, steps) == Some(d) && c.delivered <= d.delivered <= |log|
    requires AsOf(initial, log, key, before, c.delivered, steps).None?
    ensures before.None? && !PutIn(log[..d.delivered], key, c.delivered)
    decreases |steps|
  {
    if steps != [] {
      var next := WatcherDo(decode, initial, log, c, steps[0]);
      DeliveredGrows(decode, initial, log, next, steps[1..], d);
      match steps[0] {
        case Deliver =>
          var now := if IsPutTo(log[c.delivered].event, key) then Some(c.delivered + 1) else before;
          NoneMeansNoPut(decode, initial, log, key, next, now, steps[1..], d);
          assert log[..d.delivered][c.delivered] == log[c.delivered];
        case Refresh(at, _) =>
          NoneMeansNoPut(decode, initial, log, key, next, ReadAsOf(initial, log, key, before, at), steps[1..], d);
      }
    }
  }

  predicate ReadsSince(first: nat, steps: seq<WatcherStep>) {
    forall i | 0 <= i < |steps| && steps[i].Refresh? :: first <= steps[i].at
  }

  lemma {:induction false} AsOfIsSince(initial: Store, log: seq<Entry>, key: string, before: Option<nat>, first: nat,
                                       delivered: nat, steps: seq<WatcherStep>)
    requires first <= delivered && ReadsSince(first, steps) && (before.Some? ==> first <= before.value)
    ensures var asOf := AsOf(initial, log, key, before, delivered, steps); asOf.Some? ==> first <= asOf.value
    decreases |steps|
  {
    if steps != [] {
      match steps[0] {
        case Deliver =>
          var now := if delivered < |log| && IsPutTo(log[delivered].event, key) then Some(delivered + 1) else before;
          AsOfIsSince(initial, log, key, now, first, delivered + 1, steps[1..]);
        case Refresh(at, _) =>
          AsOfIsSince(initial, log, key, ReadAsOf(initial, log, key, before, at), first, delivered, steps[1..]);
      }
    }
  }

  /** A client whose reads are none older than its connection shows no output exactly if there was none when it
      connected, and it has been told of none since. */
  lemma NoOutputIff(decode: Decoder, initial: Store, log: seq<Entry>, job: string, first: nat, snapshot: seq<Event>,
                    later: seq<WatcherStep>, d: Watcher)
    requires '/' !in job && StateKey(job) !in initial && OutputKey(job) !in initial
    requires IsReader(decode, initial, log, first, snapshot, later, d) && ReadsSince(first, later)
    requires var asOf := KeyAsOf(initial, log, OutputKey(job), first, later);
             d.delivered <= |log| && (asOf.Some? ==> asOf.value <= |log|) &&
             IsCurrent(log, OutputKey(job), asOf, d.delivered)
    ensures first <= d.delivered
    ensures KeyAsOf(initial, log, OutputKey(job), first, later).None? <==> Hidden(initial, log, job, first, d.delivered)
  {
    var key, asOf := OutputKey(job), KeyAsOf(initial, log, OutputKey(job), first, later);
    var connected := Watcher(Absorb(decode, map[], snapshot), first);
    AnyReaderShowsAsOf(decode, initial, log, job, first, snapshot, later, d);
    if asOf.None? {
      NoneMeansNoPut(decode, initial, log, key, connected, ReadAsOf(initial, log, key, None, first), later, d);
    } else {
      AsOfIsSince(initial, log, key, ReadAsOf(initial, log, key, None, first), first, first, later);
      ShownIsNotHidden(initial, log, job, first, d.delivered, asOf.value);
    }
  }

  lemma ShownIsNotHidden(initial: Store, log: seq<Entry>, job: string, first: nat, delivered: nat, n: nat)
    requires first <= n <= |log| && first <= delivered <= |log| && IsCurrent(log, OutputKey(job), Some(n), delivered)
    requires OutputKey(job) in Replay(initial, Events(log[..n]))
    ensures !Hidden(initial, log, job, first, delivered)
  {
    var lo, hi := if n <= delivered then n else delivered, if n <= delivered then delivered else n;
    var part := log[..hi];
    assert part[..lo] == log[..lo] && part[..hi] == part && part[..first] == log[..first];
    HiddenStays(initial, part, job, first, lo, hi);
    HiddenIsNotStored(initial, log, job, first, n);
  }

  // ---- Exactly which verdicts are shown with their output

  /** A verdict that a client shows without its output was shown without it from the first: the client connected in
      the gap. */
  lemma HiddenMeansGap(cfg: Config, initial: Store, log: seq<Entry>, job: string, p: nat, first: nat)
    requires Ordered(cfg, log) && OnlyRuns(initial, log, job) && OneAtATime(log, job) && IsLastVerdict(log, job, p)
    requires first <= |log|
    ensures Hidden(initial, log, job, first, |log|) <==>
            InGap(log[..first], job) && !PutIn(log, OutputKey(job), first)
  {
    var prior := log[..first];
    assert log[..|log|] == log;
    if InGap(prior, job) {
      GapHidesOutput(initial, prior, job);
    } else if Hidden(initial, log, job, first, |log|) {
      var a, m := LastVerdictHasLastOutput(cfg, initial, log, job, p);
      assert m < first;
      if p < first {
        PrefixOfRuns(cfg, initial, log, job, first);
        LastVerdictThen(log, job, p, first);
        OutputIsMissingIff(cfg, initial, prior, job, p);
      } else {
        assert prior[m] == log[m] && forall k | m < k < first :: prior[k] == log[k];
        LastWriteDecides(initial, prior, OutputKey(job), m);
      }
      assert false;
    }
  }

  lemma LastVerdictThen(log: seq<Entry>, job: string, p: nat, n: nat)
    requires p < n <= |log| && IsLastVerdict(log, job, p)
    ensures IsLastVerdict(log[..n], job, p)
  {
    var prior := log[..n];
    assert forall q | 0 <= q < |prior| :: prior[q] == log[q];
  }

  lemma PrefixOfRuns(cfg: Config, initial: Store, log: seq<Entry>, job: string, n: nat)
    requires Ordered(cfg, log) && OnlyRuns(initial, log, job) && OneAtATime(log, job) && n <= |log|
    ensures Ordered(cfg, log[..n]) && OnlyRuns(initial, log[..n], job) && OneAtATime(log[..n], job)
  {
    OrderedPrefix(cfg, log, n);
  }

  /** Runs put their output once. */
  lemma OneOutput(cfg: Config, log: seq<Entry>, job: string, m: nat, q: nat)
    requires Ordered(cfg, log) && m < q < |log| && log[m].actor.Run? && log[m].actor == log[q].actor
    requires IsPutTo(log[m].event, OutputKey(job))
    ensures !IsPutTo(log[q].event, OutputKey(job))
  {
    var run := log[m].actor.id;
    var a, n := WriteOf(cfg, log, m);
    NextIsWrite(cfg, log, run, a, q);
    TrailGrows(log, m, q, run);
    WritesOnJob(cfg, a, n, job);
    WritesOnJob(cfg, a, Made(log, run, q), job);
  }

  /** What a client shows that shows a verdict, in full generality: whatever it has read, and whenever.  Let the job's
      runs write one at a time.  The verdict is that of a run, the last one as of the moment shown; and the output is
      nothing, if the client knows of none; or that run's own, if it is the last as of the moment shown; and
      otherwise it is that of another run. */
  lemma VerdictOfAnyReader(cfg: Config, decode: Decoder, initial: Store, log: seq<Entry>, job: string, first: nat,
                           snapshot: seq<Event>, later: seq<WatcherStep>, d: Watcher)
    returns (p: nat, m: nat, a: Attempt)
    requires Ordered(cfg, log) && OnlyRuns(initial, log, job) && OneAtATime(log, job) && '/' !in job
    requires IsReader(decode, initial, log, first, snapshot, later, d) && IsVerdict(Get(d.jobs, job).status)
    ensures var state := KeyAsOf(initial, log, StateKey(job), first, later);
            state.Some? && state.value <= |log| && IsLastVerdict(log[..state.value], job, p)
    ensures m < p < |log| && log[p].actor.Run? && a.job == job && Trail(log, log[p].actor.id) <= Writes(cfg, a)
    ensures log[m] == Entry(Put(OutputKey(job), a.output), log[p].actor) && Get(d.jobs, job).status == Verdict(a.ok)
    ensures log[p].event == Put(StateKey(job), Verdict(a.ok))
    ensures var output, shown := KeyAsOf(initial, log, OutputKey(job), first, later), Get(d.jobs, job).stdouterr;
      if output.None? then shown == ""
      else output.value <= |log| &&
           if m < output.value && !PutIn(log[..output.value], OutputKey(job), m + 1) then shown == a.output
           else IsOfAnother(log, job, p, shown)
  {
    AnyReaderShowsAsOf(decode, initial, log, job, first, snapshot, later, d);
    VerdictsAreNoOtherStatus();
    var state := KeyAsOf(initial, log, StateKey(job), first, later).value;
    p, m, a := VerdictAsOf(cfg, initial, log, job, state);
    var output := KeyAsOf(initial, log, OutputKey(job), first, later);
    if output.Some? {
      OutputAsOf(cfg, initial, log, job, p, m, output.value);
    }
  }

  /** The output shown was put by another run than the one that has judged. */
  predicate IsOfAnother(log: seq<Entry>, job: string, p: nat, shown: string)
    requires p < |log|
  {
    exists q :: 0 <= q < |log| && log[q].event == Put(OutputKey(job), shown) && log[q].actor != log[p].actor
  }

  lemma VerdictAsOf(cfg: Config, initial: Store, log: seq<Entry>, job: string, n: nat)
    returns (p: nat, m: nat, a: Attempt)
    requires Ordered(cfg, log) && OnlyRuns(initial, log, job) && OneAtATime(log, job) && n <= |log|
    requires IsVerdict(LastPut(Events(log[..n]), StateKey(job), NEW))
    ensures IsLastVerdict(log[..n], job, p) && m < p < n && log[p].actor.Run?
    ensures log[p].event == Put(StateKey(job), Verdict(a.ok))
    ensures a.job == job && Trail(log, log[p].actor.id) <= Writes(cfg, a)
    ensures log[m] == Entry(Put(OutputKey(job), a.output), log[p].actor)
    ensures !PutIn(log[..n], OutputKey(job), m + 1)
    ensures LastPut(Events(log[..n]), StateKey(job), NEW) == Verdict(a.ok)
  {
    var part := log[..n];
    VerdictsAreNoOtherStatus();
    PrefixOfRuns(cfg, initial, log, job, n);
    var last := LastPutAt(part, StateKey(job), NEW);
    p := last.value;
    var b;
    b, m := LastVerdictHasLastOutput(cfg, initial, part, job, p);
    assert part[p] == log[p] && part[m] == log[m];
    var k;
    a, k := VerdictHasOutput(cfg, log, job, p);
    if k != m {
      OneOutput(cfg, log, job, if k < m then k else m, if k < m then m else k);
    }
  }

  lemma OutputAsOf(cfg: Config, initial: Store, log: seq<Entry>, job: string, p: nat, m: nat, n: nat)
    requires Ordered(cfg, log) && OnlyRuns(initial, log, job) && m < p < |log| && n <= |log|
    requires log[m].actor == log[p].actor && IsPutTo(log[m].event, OutputKey(job))
    requires OutputKey(job) in Replay(initial, Events(log[..n]))
    ensures var shown := LastPut(Events(log[..n]), OutputKey(job), "");
      if m < n && !PutIn(log[..n], OutputKey(job), m + 1) then shown == log[m].event.value
      else IsOfAnother(log, job, p, shown)
  {
    var part := log[..n];
    if m < n && !PutIn(part, OutputKey(job), m + 1) {
      LastPutIs(part, OutputKey(job), "", m);
    } else {
      StoredIsLastPut(initial, part, OutputKey(job), "");
      var last := LastPutAt(part, OutputKey(job), "");
      var q := last.value;
      assert part[q] == log[q];
      assert OnKeys(log[m].event, job);
      assert q != m;
      if log[q].actor == log[m].actor {
        OneOutput(cfg, log, job, if q < m then q else m, if q < m then m else q);
      }
    }
  }

  /** The client shows of both keys what its watch has told it, however it came there. */
  predicate IsUpToDate(initial: Store, log: seq<Entry>, job: string, first: nat, later: seq<WatcherStep>,
                       delivered: nat)
  {
    var state := KeyAsOf(initial, log, StateKey(job), first, later);
    var output := KeyAsOf(initial, log, OutputKey(job), first, later);
    && delivered <= |log| && (state.Some? ==> state.value <= |log|) && (output.Some? ==> output.value <= |log|)
    && IsCurrent(log, StateKey(job), state, delivered) && IsCurrent(log, OutputKey(job), output, delivered)
  }

  /** Take any run of the server, with clients, other jobs and crashes, up to some moment, and a job whose state and
      output only runs have written, one at a time.  A client connects, is told every event in order, as late as may
      be, and reads again as of any moments.  If of both keys it shows what it has been told, a verdict that it shows
      is the last that it has been told of; and it shows that run's output with it, unless it knows of no output.
      For clients that have read nothing older than their connection, this is so exactly if they connected between
      that run's successor deleting the output and putting its own state, and have been told of no output since. */
  lemma VerdictsOfRepeatedRuns(cfg: Config, decode: Decoder, initial: Store, steps: seq<Step>, t: State, seen: nat,
                               job: string, first: nat, snapshot: seq<Event>, later: seq<WatcherStep>, d: Watcher)
    returns (p: nat, a: Attempt)
    requires After(cfg, Boot(cfg, initial, [], 0), steps) == Some(t) && seen <= |t.log| && '/' !in job
    requires OnlyRuns(initial, t.log[..seen], job) && OneAtATime(t.log[..seen], job)
    requires IsReader(decode, initial, t.log[..seen], first, snapshot, later, d)
    requires IsUpToDate(initial, t.log[..seen], job, first, later, d.delivered)
    requires IsVerdict(Get(d.jobs, job).status)
    ensures first <= d.delivered <= seen && IsLastVerdict(t.log[..d.delivered], job, p) && a.job == job
    ensures t.log[p].actor.Run? && Trail(t.log[..seen], t.log[p].actor.id) <= Writes(cfg, a)
    ensures Get(d.jobs, job).status == Verdict(a.ok)
    ensures var given, run := AllGiven(cfg, initial, steps), t.log[p].actor.id;
            run in given && given[run] == Result(job, a.output, a.ok)
    ensures Get(d.jobs, job).stdouterr == a.output <==>
            a.output == "" || KeyAsOf(initial, t.log[..seen], OutputKey(job), first, later).Some?
    ensures ReadsSince(first, later) ==>
      (Get(d.jobs, job).stdouterr == a.output <==>
       a.output == "" || !(InGap(t.log[..first], job) && !PutIn(t.log[..d.delivered], OutputKey(job), first)))
  {
    var log := t.log[..seen];
    ReachedIsOrdered(cfg, initial, steps, t);
    OrderedPrefix(cfg, t.log, seen);
    DeliveredIsSeen(decode, initial, log, first, snapshot, later, d);
    var m;
    p, m, a := UpToDateVerdict(cfg, decode, initial, log, job, first, snapshot, later, d);
    assert log[..d.delivered] == t.log[..d.delivered] && log[..first] == t.log[..first] && log[p] == t.log[p];
    assert log[m] == t.log[m];
    LogHoldsResults(cfg, initial, steps, t);
    ShownIsGiven(t.log, job, p, m, a, AllGiven(cfg, initial, steps));
  }

  lemma ShownIsGiven(log: seq<Entry>, job: string, p: nat, m: nat, a: Attempt, given: map<nat, Result>)
    requires LogFits(log, given) && p < |log| && m < |log| && log[p].actor.Run?
    requires log[p].event == Put(StateKey(job), Verdict(a.ok))
    requires log[m] == Entry(Put(OutputKey(job), a.output), log[p].actor)
    ensures log[p].actor.id in given && given[log[p].actor.id] == Result(job, a.output, a.ok)
  {
    assert Fits(log[m].event, job, log[p].actor.id, given) && Fits(log[p].event, job, log[p].actor.id, given);
    assert DONE[0] != FAIL[0];
  }

  lemma DeliveredIsSeen(decode: Decoder, initial: Store, log: seq<Entry>, first: nat, snapshot: seq<Event>,
                        later: seq<WatcherStep>, d: Watcher)
    requires IsReader(decode, initial, log, first, snapshot, later, d)
    ensures first <= d.delivered <= |log|
  {
    DeliveredGrows(decode, initial, log, Watcher(Absorb(decode, map[], snapshot), first), later, d);
  }

  lemma ReachedIsOrdered(cfg: Config, initial: Store, steps: seq<Step>, t: State)
    requires After(cfg, Boot(cfg, initial, [], 0), steps) == Some(t)
    ensures Ordered(cfg, t.log)
  {
    FirstBoot(cfg, initial);
    RunsKeepHistory(cfg, initial, Boot(cfg, initial, [], 0), steps, t);
  }

  lemma UpToDateVerdict(cfg: Config, decode: Decoder, initial: Store, log: seq<Entry>, job: string,
                        first: nat, snapshot: seq<Event>, later: seq<WatcherStep>, d: Watcher)
    returns (p: nat, m: nat, a: Attempt)
    requires Ordered(cfg, log) && OnlyRuns(initial, log, job) && OneAtATime(log, job) && '/' !in job
    requires IsReader(decode, initial, log, first, snapshot, later, d) && IsVerdict(Get(d.jobs, job).status)
    requires IsUpToDate(initial, log, job, first, later, d.delivered)
    ensures first <= d.delivered <= |log| && IsLastVerdict(log[..d.delivered], job, p) && a.job == job
    ensures log[p].actor.Run? && Trail(log, log[p].actor.id) <= Writes(cfg, a)
    ensures Get(d.jobs, job).status == Verdict(a.ok)
    ensures m < |log| && log[m] == Entry(Put(OutputKey(job), a.output), log[p].actor)
    ensures log[p].event == Put(StateKey(job), Verdict(a.ok))
    ensures Get(d.jobs, job).stdouterr == a.output <==>
            a.output == "" || KeyAsOf(initial, log, OutputKey(job), first, later).Some?
    ensures ReadsSince(first, later) ==>
      (Get(d.jobs, job).stdouterr == a.output <==>
       a.output == "" || !(InGap(log[..first], job) && !PutIn(log[..d.delivered], OutputKey(job), first)))
  {
    var n, told := d.delivered, log[..d.delivered];
    AnyReaderShowsAsOf(decode, initial, log, job, first, snapshot, later, d);
    VerdictsAreNoOtherStatus();
    var state := KeyAsOf(initial, log, StateKey(job), first, later);
    var output := KeyAsOf(initial, log, OutputKey(job), first, later);
    CurrentShowsLast(log, StateKey(job), NEW, state.value, n);
    p, m, a := VerdictAsOf(cfg, initial, log, job, n);
    if output.Some? {
      CurrentShowsLast(log, OutputKey(job), "", output.value, n);
      assert told[m] == log[m];
      LastPutIs(told, OutputKey(job), "", m);
    }
    if ReadsSince(first, later) {
      NoOutputIff(decode, initial, log, job, first, snapshot, later, d);
      PrefixOfRuns(cfg, initial, log, job, n);
      assert told[..first] == log[..first] && told[..n] == told;
      HiddenMeansGap(cfg, initial, told, job, p, first);
    }
  }
}
