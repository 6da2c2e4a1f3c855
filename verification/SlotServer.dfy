/** The slot server of gocrms as a state machine: clients writing to the store, the watch and the listing
    feeding the channel, one worker per slot, and crashes, all interleaved freely. */
module SlotServer {
  import opened Etcd
  import JobFeed

  datatype Worker =
    | Idle
    | Assigned(job: string)            // received from the channel
    | Ran(job: string, outcome: Outcome)
    | Recorded(job: string)            // the verdict has been saved, as far as that was possible

  /** How running a job ended. */
  datatype Outcome = Succeeded | Failed(error: string)

  datatype Status = Pending | Running | Done | Exit | OnHold

  /** What a job node holds; its other fields play no part here. */
  datatype JobRecord = JobRecord(status: Status, error: string, rest: string)

  /** How job nodes are read and written is left to the configuration; JSON is not part of this model. */
  datatype Config = Config(server: string, slots: nat, read: string -> Option<JobRecord>, write: JobRecord -> string)

  /** The record in a job's node, if it has one that can be read. */
  function ReadJob(cfg: Config, store: Store, job: string): Option<JobRecord> {
    if JobKey(job) in store then cfg.read(store[JobKey(job)]) else None
  }

  /** A job can be run if its node can be read and does not say that it is running already. */
  predicate CanRun(cfg: Config, store: Store, job: string) {
    var record := ReadJob(cfg, store, job);
    record.Some? && record.value.status != Running
  }

  /** What DoneJob and FailJob make of a record. */
  function Judged(record: JobRecord, outcome: Outcome): JobRecord {
    match outcome
    case Succeeded => record.(status := Done)
    case Failed(error) => record.(status := Exit, error := error)
  }

  datatype State = State(
    store: Store,
    feed: JobFeed.Feed,
    workers: seq<Worker>,
    finished: seq<string>)  // history: the jobs whose handling is complete

  datatype Step =
    | Client(event: Event)
    | OpenWatch
    | ListJobs(jobs: seq<string>)
    | SendListed
    | Receive
    | SendWatched
    | Take(slot: nat)
    | Run(slot: nat, outcome: Outcome)
    | Record(slot: nat)
    | Remove(slot: nat)
    | Crash

  /** A process that has just started, on whatever the store holds. */
  function Start(cfg: Config, store: Store): State {
    State(store, JobFeed.STOPPED, seq(cfg.slots, _ => Idle), [])
  }

  predicate InPhase(s: State, slot: nat, phase: Worker -> bool) {
    slot < |s.workers| && phase(s.workers[slot])
  }

  predicate Enabled(cfg: Config, s: State, step: Step) {
    match step
    case Client(_) => true
    case OpenWatch => !s.feed.watching
    case ListJobs(jobs) =>
      s.feed.watching && s.feed.listing.None? && JobFeed.IsListing(cfg.server, s.store, jobs)
    case SendListed => s.feed.unsent != [] && |s.feed.queue| < cfg.slots
    case Receive =>
      s.feed.hand.None? && s.feed.pending != [] && AssignDir(cfg.server) <= s.feed.pending[0].key
    case SendWatched => s.feed.hand.Some? && |s.feed.queue| < cfg.slots
    case Take(i) => InPhase(s, i, (w: Worker) => w.Idle?) && s.feed.queue != []
    case Run(i, outcome) =>
      InPhase(s, i, (w: Worker) => w.Assigned?) && (outcome.Succeeded? ==> CanRun(cfg, s.store, s.workers[i].job))
    case Record(i) => InPhase(s, i, (w: Worker) => w.Ran?)
    case Remove(i) => InPhase(s, i, (w: Worker) => w.Recorded?)
    case Crash => true
  }

  function Write(cfg: Config, s: State, e: Event): State {
    if Emits(s.store, e)
    then s.(store := Apply(s.store, e), feed := JobFeed.Observe(cfg.server, s.feed, e))
    else s
  }

  function Do(cfg: Config, s: State, step: Step): State
    requires Enabled(cfg, s, step)
  {
    match step
    case Client(e) => Write(cfg, s, e)
    case OpenWatch => s.(feed := s.feed.(watching := true))
    case ListJobs(jobs) => s.(feed := JobFeed.List(s.feed, jobs))
    case SendListed => s.(feed := JobFeed.SendListed(s.feed))
    case Receive => s.(feed := JobFeed.Receive(cfg.server, s.feed))
    case SendWatched => s.(feed := JobFeed.SendWatched(s.feed))
    case Take(i) =>
      s.(feed := JobFeed.Take(s.feed), workers := s.workers[i := Assigned(s.feed.queue[0])])
    case Run(i, outcome) => s.(workers := s.workers[i := Ran(s.workers[i].job, outcome)])
    case Record(i) =>
      var job, outcome := s.workers[i].job, s.workers[i].outcome;
      var after := s.(workers := s.workers[i := Recorded(job)]);
      var record := ReadJob(cfg, s.store, job);
      if record.Some? then Write(cfg, after, Put(JobKey(job), cfg.write(Judged(record.value, outcome)))) else after
    case Remove(i) =>
      var job := s.workers[i].job;
      Write(cfg, s.(workers := s.workers[i := Idle], finished := s.finished + [job]),
            Delete(AssignKey(cfg.server, job)))
    case Crash => Start(cfg, s.store)
  }

  /** The state after a sequence of steps, if each is enabled in turn. */
  function After(cfg: Config, s: State, steps: seq<Step>): Option<State>
    decreases |steps|
  {
    if steps == [] then Some(s)
    else if Enabled(cfg, s, steps[0]) then After(cfg, Do(cfg, s, steps[0]), steps[1..])
    else None
  }

  // ---- What each step writes

  /** What becomes of the store, step by step: a client's put or delete does what it says, whenever it comes; a worker
      rewrites the node of its job, and then removes its assign key; no other step writes, and no crash loses
      anything. */
  lemma WhatStepsWrite(cfg: Config, s: State, step: Step)
    requires Enabled(cfg, s, step)
    ensures Do(cfg, s, step).store ==
      match step
      case Client(Put(k, v)) => s.store[k := v]
      case Client(Delete(k)) => s.store - {k}
      case Record(i) => Recording(cfg, s.store, s.workers[i].job, s.workers[i].outcome)
      case Remove(i) => s.store - {"crms/assign/" + cfg.server + "/" + s.workers[i].job}
      case _ => s.store
  {
    if step.Remove? {
      var job := s.workers[step.slot].job;
      assert AssignKey(cfg.server, job) == "crms/assign/" + cfg.server + "/" + job;
    }
  }

  /** The store with the verdict on a job: the record that can be read says done, or that it has failed and why, and
      is otherwise as it was; what cannot be read stays. */
  function Recording(cfg: Config, store: Store, job: string, outcome: Outcome): Store {
    var key := "crms/job/" + job;
    if key !in store || cfg.read(store[key]).None? then store
    else
      var record := cfg.read(store[key]).value;
      store[key := cfg.write(if outcome.Succeeded? then JobRecord(Done, record.error, record.rest)
                             else JobRecord(Exit, outcome.error, record.rest))]
  }

  /** When a run may succeed: exactly if the job's node is there, can be read and does not say that it is running; a
      run may fail in any case. */
  lemma RunsIff(cfg: Config, s: State, i: nat, outcome: Outcome)
    requires i < |s.workers| && s.workers[i].Assigned?
    ensures var key := "crms/job/" + s.workers[i].job;
            Enabled(cfg, s, Run(i, outcome)) <==>
              outcome.Failed? ||
              (key in s.store && cfg.read(s.store[key]).Some? && cfg.read(s.store[key]).value.status != Running)
  {
    assert JobKey(s.workers[i].job) == "crms/job/" + s.workers[i].job;
  }

  /** Any client may write anything at any moment, and the process may die at any. */
  lemma ClientsAndCrashesAreFree(cfg: Config, s: State, e: Event)
    ensures Enabled(cfg, s, Client(e)) && Enabled(cfg, s, Crash)
  {
  }

  // ---- What every run keeps

  ghost predicate Holds(workers: seq<Worker>, job: string) {
    exists i :: 0 <= i < |workers| && !workers[i].Idle? && workers[i].job == job
  }

  function Held(workers: seq<Worker>): multiset<string> {
    if workers == [] then multiset{}
    else Held(workers[..|workers| - 1]) +
         (if workers[|workers| - 1].Idle? then multiset{} else multiset{workers[|workers| - 1].job})
  }

  /** No assignment is lost: once the listing is made, the job of every assign key in the store is on its way
      to a worker or in a worker's hands. */
  ghost predicate NothingLost(cfg: Config, s: State)
    requires forall e | e in s.feed.pending :: AssignDir(cfg.server) <= e.key
  {
    s.feed.listing.Some? ==>
      forall job | AssignKey(cfg.server, job) in s.store ::
        JobFeed.InFlight(cfg.server, s.feed, job) || Holds(s.workers, job)
  }

  ghost predicate Inv(cfg: Config, s: State) {
    && |s.workers| == cfg.slots
    && JobFeed.FeedInv(cfg.server, cfg.slots, s.feed)
    && (s.feed.listing.Some? ==> s.feed.watching)
    && NothingLost(cfg, s)
  }

  /** Every job a worker received is still in a worker's hands or was handled to the end. */
  ghost predicate Accounted(s: State) {
    multiset(s.feed.taken) == Held(s.workers) + multiset(s.finished)
  }

  lemma StartKeeps(cfg: Config, store: Store)
    ensures Inv(cfg, Start(cfg, store))
  {
  }

  lemma HoldsAfter(workers: seq<Worker>, i: nat, w: Worker, job: string)
    requires i < |workers| && Holds(workers, job)
    requires !workers[i].Idle? && workers[i].job == job ==> !w.Idle? && w.job == job
    ensures Holds(workers[i := w], job)
  {
    var k :| 0 <= k < |workers| && !workers[k].Idle? && workers[k].job == job;
    assert workers[i := w][k] == if k == i then w else workers[k];
  }

  lemma NowHolds(workers: seq<Worker>, i: nat, w: Worker)
    requires i < |workers| && !w.Idle?
    ensures Holds(workers[i := w], w.job)
  {
    assert workers[i := w][i] == w;
  }

  /** A write keeps the invariant, except that deleting a key may uncover nothing but that key. */
  lemma WriteKeeps(cfg: Config, s: State, e: Event)
    requires Inv(cfg, s)
    ensures Inv(cfg, Write(cfg, s, e))
  {
    var t := Write(cfg, s, e);
    JobFeed.ObserveKeeps(cfg.server, cfg.slots, s.feed, e);
    forall job | s.feed.listing.Some? && AssignKey(cfg.server, job) in t.store
      ensures JobFeed.InFlight(cfg.server, t.feed, job) || Holds(t.workers, job)
    {
      JobFeed.ObserveKeepsInFlight(cfg.server, cfg.slots, s.feed, e, job);
    }
  }

  lemma ListingKeeps(cfg: Config, s: State, jobs: seq<string>)
    requires Inv(cfg, s) && Enabled(cfg, s, ListJobs(jobs))
    ensures Inv(cfg, Do(cfg, s, ListJobs(jobs)))
  {
    var t := Do(cfg, s, ListJobs(jobs));
    assert JobFeed.By(t.feed.sent, JobFeed.FromListing) + s.feed.unsent == [];
    forall job | AssignKey(cfg.server, job) in t.store
      ensures JobFeed.InFlight(cfg.server, t.feed, job)
    {
      DirJobsAreKeys(cfg.server, s.store, job);
      assert job in jobs;
    }
  }

  lemma MovingKeeps(cfg: Config, s: State, step: Step)
    requires Inv(cfg, s) && Enabled(cfg, s, step)
    requires step.SendListed? || step.Receive? || step.SendWatched?
    ensures Inv(cfg, Do(cfg, s, step))
  {
    var t := Do(cfg, s, step);
    match step {
      case SendListed => JobFeed.SendListedKeeps(cfg.server, cfg.slots, s.feed);
      case Receive => JobFeed.ReceiveKeeps(cfg.server, cfg.slots, s.feed);
      case SendWatched => JobFeed.SendWatchedKeeps(cfg.server, cfg.slots, s.feed);
    }
    forall job | s.feed.listing.Some? && AssignKey(cfg.server, job) in t.store
      ensures JobFeed.InFlight(cfg.server, t.feed, job) || Holds(t.workers, job)
    {
      if JobFeed.InFlight(cfg.server, s.feed, job) {
        JobFeed.MovingKeepsInFlight(cfg.server, cfg.slots, s.feed, job);
      }
    }
  }

  lemma TakeKeeps(cfg: Config, s: State, i: nat)
    requires Inv(cfg, s) && Enabled(cfg, s, Take(i))
    ensures Inv(cfg, Do(cfg, s, Take(i)))
  {
    var t, w := Do(cfg, s, Take(i)), Assigned(s.feed.queue[0]);
    JobFeed.TakeKeeps(cfg.server, cfg.slots, s.feed);
    forall job | s.feed.listing.Some? && AssignKey(cfg.server, job) in t.store
      ensures JobFeed.InFlight(cfg.server, t.feed, job) || Holds(t.workers, job)
    {
      if Holds(s.workers, job) {
        HoldsAfter(s.workers, i, w, job);
      } else {
        JobFeed.TakeKeepsInFlight(cfg.server, cfg.slots, s.feed, job);
        NowHolds(s.workers, i, w);
      }
    }
  }

  /** A worker moving on with the job it holds. */
  lemma ProgressKeeps(cfg: Config, s: State, i: nat, w: Worker)
    requires Inv(cfg, s) && i < |s.workers|
    requires !s.workers[i].Idle? && !w.Idle? && w.job == s.workers[i].job
    ensures Inv(cfg, s.(workers := s.workers[i := w]))
  {
    forall job | Holds(s.workers, job)
      ensures Holds(s.workers[i := w], job)
    {
      HoldsAfter(s.workers, i, w, job);
    }
  }

  lemma RemoveKeeps(cfg: Config, s: State, i: nat)
    requires Inv(cfg, s) && Enabled(cfg, s, Remove(i))
    ensures Inv(cfg, Do(cfg, s, Remove(i)))
  {
    var t, done := Do(cfg, s, Remove(i)), s.workers[i].job;
    var e := Delete(AssignKey(cfg.server, done));
    JobFeed.ObserveKeeps(cfg.server, cfg.slots, s.feed, e);
    forall job | s.feed.listing.Some? && AssignKey(cfg.server, job) in t.store
      ensures JobFeed.InFlight(cfg.server, t.feed, job) || Holds(t.workers, job)
    {
      assert job != done;
      JobFeed.ObserveKeepsInFlight(cfg.server, cfg.slots, s.feed, e, job);
      if Holds(s.workers, job) {
        HoldsAfter(s.workers, i, Idle, job);
      }
    }
  }

  lemma RecordKeeps(cfg: Config, s: State, i: nat)
    requires Inv(cfg, s) && Enabled(cfg, s, Record(i))
    ensures Inv(cfg, Do(cfg, s, Record(i)))
  {
    var job, outcome := s.workers[i].job, s.workers[i].outcome;
    var after := s.(workers := s.workers[i := Recorded(job)]);
    ProgressKeeps(cfg, s, i, Recorded(job));
    match ReadJob(cfg, s.store, job)
    case Some(record) => WriteKeeps(cfg, after, Put(JobKey(job), cfg.write(Judged(record, outcome))));
    case None =>
  }

  /** Every step of every participant keeps the invariant. */
  lemma StepKeeps(cfg: Config, s: State, step: Step)
    requires Inv(cfg, s) && Enabled(cfg, s, step)
    ensures Inv(cfg, Do(cfg, s, step))
  {
    match step {
      case Client(e) => WriteKeeps(cfg, s, e);
      case OpenWatch =>
      case ListJobs(jobs) => ListingKeeps(cfg, s, jobs);
      case SendListed => MovingKeeps(cfg, s, step);
      case Receive => MovingKeeps(cfg, s, step);
      case SendWatched => MovingKeeps(cfg, s, step);
      case Take(i) => TakeKeeps(cfg, s, i);
      case Run(i, outcome) => ProgressKeeps(cfg, s, i, Ran(s.workers[i].job, outcome));
      case Record(i) => RecordKeeps(cfg, s, i);
      case Remove(i) => RemoveKeeps(cfg, s, i);
      case Crash => StartKeeps(cfg, s.store);
    }
  }

  lemma {:induction false} RunsKeep(cfg: Config, s: State, steps: seq<Step>, t: State)
    requires Inv(cfg, s) && After(cfg, s, steps) == Some(t)
    ensures Inv(cfg, t)
    decreases |steps|
  {
    if steps != [] {
      StepKeeps(cfg, s, steps[0]);
      RunsKeep(cfg, Do(cfg, s, steps[0]), steps[1..], t);
    }
  }

  lemma {:induction false} NothingHeld(workers: seq<Worker>)
    requires forall w | w in workers :: w.Idle?
    ensures Held(workers) == multiset{}
  {
    if workers != [] {
      NothingHeld(workers[..|workers| - 1]);
    }
  }

  function JobIn(w: Worker): multiset<string> {
    if w.Idle? then multiset{} else multiset{w.job}
  }

  lemma {:induction false} HeldAfter(workers: seq<Worker>, i: nat, w: Worker)
    requires i < |workers|
    ensures Held(workers[i := w]) + JobIn(workers[i]) == Held(workers) + JobIn(w)
  {
    var last := |workers| - 1;
    var front := workers[..last];
    if i == last {
      assert workers[i := w][..last] == front;
    } else {
      HeldAfter(front, i, w);
      assert workers[i := w][..last] == front[i := w];
      AddSame(Held(front[i := w]), JobIn(front[i]), Held(front), JobIn(w), JobIn(workers[last]));
    }
  }

  lemma AddSame(a: multiset<string>, b: multiset<string>, c: multiset<string>, d: multiset<string>, x: multiset<string>)
    requires a + b == c + d
    ensures (a + x) + b == (c + x) + d
  {
    assert (a + x) + b == (a + b) + x;
  }

  lemma HeldStart(workers: seq<Worker>, i: nat, w: Worker)
    requires i < |workers| && workers[i].Idle? && !w.Idle?
    ensures Held(workers[i := w]) == Held(workers) + multiset{w.job}
  {
    HeldAfter(workers, i, w);
    assert Held(workers[i := w]) + multiset{} == Held(workers[i := w]);
  }

  lemma HeldEnd(workers: seq<Worker>, i: nat)
    requires i < |workers| && !workers[i].Idle?
    ensures Held(workers) == Held(workers[i := Idle]) + multiset{workers[i].job}
  {
    HeldAfter(workers, i, Idle);
    assert Held(workers) + multiset{} == Held(workers);
  }

  lemma HeldSame(workers: seq<Worker>, i: nat, w: Worker)
    requires i < |workers| && !workers[i].Idle? && !w.Idle? && w.job == workers[i].job
    ensures Held(workers[i := w]) == Held(workers)
  {
    HeldAfter(workers, i, w);
    var a, b, x := Held(workers[i := w]), Held(workers), multiset{w.job};
    assert a == (a + x) - x && b == (b + x) - x;
  }

  lemma TakeAccounts(s: State, job: string, held: multiset<string>)
    requires Accounted(s) && held == Held(s.workers) + multiset{job}
    ensures multiset(s.feed.taken + [job]) == held + multiset(s.finished)
  {
    assert multiset(s.feed.taken + [job]) == multiset(s.feed.taken) + multiset{job};
    assert held + multiset(s.finished) == (Held(s.workers) + multiset(s.finished)) + multiset{job};
  }

  lemma RemoveAccounts(s: State, job: string, held: multiset<string>)
    requires Accounted(s) && Held(s.workers) == held + multiset{job}
    ensures multiset(s.feed.taken) == held + multiset(s.finished + [job])
  {
    assert multiset(s.finished + [job]) == multiset(s.finished) + multiset{job};
    assert held + (multiset(s.finished) + multiset{job}) == (held + multiset{job}) + multiset(s.finished);
  }

  lemma TakeStepAccounts(cfg: Config, s: State, i: nat)
    requires Accounted(s) && Enabled(cfg, s, Take(i))
    ensures Accounted(Do(cfg, s, Take(i)))
  {
    var w := Assigned(s.feed.queue[0]);
    HeldStart(s.workers, i, w);
    TakeAccounts(s, w.job, Held(s.workers[i := w]));
  }

  lemma RemoveStepAccounts(cfg: Config, s: State, i: nat)
    requires Accounted(s) && Enabled(cfg, s, Remove(i))
    ensures Accounted(Do(cfg, s, Remove(i)))
  {
    HeldEnd(s.workers, i);
    RemoveAccounts(s, s.workers[i].job, Held(s.workers[i := Idle]));
  }

  lemma StepAccounts(cfg: Config, s: State, step: Step)
    requires Accounted(s) && Enabled(cfg, s, step)
    ensures Accounted(Do(cfg, s, step))
  {
    match step {
      case Take(i) => TakeStepAccounts(cfg, s, i);
      case Run(i, outcome) => HeldSame(s.workers, i, Ran(s.workers[i].job, outcome));
      case Record(i) => HeldSame(s.workers, i, Recorded(s.workers[i].job));
      case Remove(i) => RemoveStepAccounts(cfg, s, i);
      case Crash => NothingHeld(Start(cfg, s.store).workers);
      case _ =>
    }
  }

  lemma {:induction false} RunsAccount(cfg: Config, s: State, steps: seq<Step>, t: State)
    requires Accounted(s) && After(cfg, s, steps) == Some(t)
    ensures Accounted(t)
    decreases |steps|
  {
    if steps != [] {
      StepAccounts(cfg, s, steps[0]);
      RunsAccount(cfg, Do(cfg, s, steps[0]), steps[1..], t);
    }
  }

  /** Over every run, with any client writes and any crashes: after the listing, an assign key in the store
      means its job is unsent, undelivered, about to be sent, in the channel or with a worker. */
  lemma NoAssignmentIsLost(cfg: Config, store: Store, steps: seq<Step>, t: State, job: string)
    requires After(cfg, Start(cfg, store), steps) == Some(t)
    requires t.feed.listing.Some? && AssignKey(cfg.server, job) in t.store
    ensures (forall e | e in t.feed.pending :: AssignDir(cfg.server) <= e.key)
    ensures JobFeed.InFlight(cfg.server, t.feed, job) || Holds(t.workers, job)
  {
    StartKeeps(cfg, store);
    RunsKeep(cfg, Start(cfg, store), steps, t);
  }

  /** Over every run since the last start: the listing and the watch each send in order and without repeats,
      workers receive in the order sent, the channel respects its capacity, and every listed or watched job
      is accounted for exactly once. */
  lemma JobsAreConserved(cfg: Config, store: Store, steps: seq<Step>, t: State)
    requires After(cfg, Start(cfg, store), steps) == Some(t)
    ensures JobFeed.FeedInv(cfg.server, cfg.slots, t.feed)
    ensures |t.workers| == cfg.slots
    ensures multiset(if t.feed.listing.Some? then t.feed.listing.value else [])
            + multiset(JobFeed.PutJobs(cfg.server, t.feed.events))
            == multiset(t.feed.unsent) + multiset(JobFeed.PutJobs(cfg.server, t.feed.pending))
               + multiset(JobFeed.Hand(t.feed)) + multiset(t.feed.queue)
               + (Held(t.workers) + multiset(t.finished))
  {
    StartKeeps(cfg, store);
    RunsKeep(cfg, Start(cfg, store), steps, t);
    NothingHeld(Start(cfg, store).workers);
    RunsAccount(cfg, Start(cfg, store), steps, t);
    JobFeed.NothingAppearsOrVanishes(cfg.server, cfg.slots, t.feed);
  }
}
