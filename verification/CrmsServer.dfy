/** The slot server as the object whose goroutines update it.  Each method is what one goroutine does between
    two points where another may come in between; each is a step of the state machine in SlotServer. */
module CrmsServer {
  import opened Etcd
  import opened SlotServer
  import SlotDraining
  import JobFeed

  class CrmsServer {
    const name: string
    const slotCount: nat
    const read: string -> Option<JobRecord>  // JSON is not part of this model
    const write: JobRecord -> string

    var store: Store               // the store, shared with the clients
    var watching: bool
    var pending: seq<Event>        // the watch channel
    var hand: Option<string>       // the job the watch handler is sending
    var listing: Option<seq<string>>
    var unsent: seq<string>        // the rest of the listing loop
    var slots: seq<string>         // the channel the slots read from
    var workers: seq<Worker>       // one per slot

    ghost var events: seq<Event>
    ghost var sent: seq<JobFeed.Sending>
    ghost var taken: seq<string>
    ghost var finished: seq<string>

    ghost function Cfg(): Config { Config(name, slotCount, read, write) }

    ghost function View(): State
      reads this
    {
      State(store, JobFeed.Feed(watching, listing, unsent, pending, hand, slots, events, sent, taken),
            workers, finished)
    }

    constructor (name: string, slotCount: nat, read: string -> Option<JobRecord>, write: JobRecord -> string,
                 store: Store)
      ensures this.name == name && this.slotCount == slotCount && this.read == read && this.write == write
      ensures View() == Start(Cfg(), store)
    {
      this.name, this.slotCount, this.read, this.write, this.store := name, slotCount, read, write, store;
      watching, pending, hand, listing, unsent, slots := false, [], None, None, [], [];
      workers := seq(slotCount, _ => Idle);
      events, sent, taken, finished := [], [], [], [];
    }

    /** A client's put or delete, or one of the server's own. */
    method Write(e: Event)
      modifies this`store, this`pending, this`events
      ensures View() == SlotServer.Write(Cfg(), old(View()), e)
    {
      if e.Put? || e.key in store {
        store := Apply(store, e);
        if watching && AssignDir(name) <= e.key {
          pending := pending + [e];
          events := events + [e];
        }
      }
    }

    method WatchAssignJobs()
      requires Enabled(Cfg(), View(), OpenWatch)
      modifies this`watching
      ensures View() == Do(Cfg(), old(View()), OpenWatch)
    {
      watching := true;
    }

    /** The listing loop: the job behind every key of the assign directory, each once. */
    method GetAssignJobs() returns (jobs: seq<string>)
      ensures JobFeed.IsListing(name, store, jobs)
    {
      var prefix := AssignDir(name);
      var kvs := set k | k in store && prefix <= k;
      jobs := [];
      while kvs != {}
        invariant JobFeed.Slicing(name, store, kvs, jobs)
        decreases kvs
      {
        var k :| k in kvs;
        JobFeed.SliceNext(name, store, kvs, jobs, k);
        kvs, jobs := kvs - {k}, jobs + [k[|prefix|..]];
      }
      JobFeed.SliceEnd(name, store, jobs);
    }

    method ListAssignJobs() returns (jobs: seq<string>)
      requires watching && listing.None?
      modifies this`listing, this`unsent
      ensures Enabled(Cfg(), old(View()), ListJobs(jobs))
      ensures View() == Do(Cfg(), old(View()), ListJobs(jobs))
    {
      jobs := GetAssignJobs();
      listing, unsent := Some(jobs), jobs;
    }

    method SendListedJob()
      requires Enabled(Cfg(), View(), SendListed)
      modifies this`unsent, this`slots, this`sent
      ensures View() == Do(Cfg(), old(View()), SendListed)
    {
      slots, sent := slots + [unsent[0]], sent + [JobFeed.Sending(JobFeed.FromListing, unsent[0])];
      unsent := unsent[1..];
    }

    /** One event of the watch: a put is turned into its job ID, a delete is ignored. */
    method HandleWatchEvt()
      requires Enabled(Cfg(), View(), Receive)
      modifies this`pending, this`hand
      ensures View() == Do(Cfg(), old(View()), Receive)
    {
      var ev := pending[0];
      pending := pending[1..];
      match ev {
        case Put(k, _) => hand := Some(k[|AssignNode(name)| + 1..]);
        case Delete(_) =>
      }
    }

    method SendWatchedJob()
      requires Enabled(Cfg(), View(), SendWatched)
      modifies this`hand, this`slots, this`sent
      ensures View() == Do(Cfg(), old(View()), SendWatched)
    {
      slots, sent := slots + [hand.value], sent + [JobFeed.Sending(JobFeed.FromWatch, hand.value)];
      hand := None;
    }

    method ReceiveJob(slot: nat)
      requires Enabled(Cfg(), View(), Take(slot))
      modifies this`slots, this`workers, this`taken
      ensures View() == Do(Cfg(), old(View()), Take(slot))
    {
      workers := workers[slot := Assigned(slots[0])];
      taken := taken + [slots[0]];
      slots := slots[1..];
    }

    /** GetJob. */
    method GetJob(job: string) returns (record: Option<JobRecord>)
      ensures record == ReadJob(Cfg(), store, job)
    {
      record := None;
      if JobKey(job) in store {
        record := read(store[JobKey(job)]);
      }
    }

    /** A job whose node cannot be read fails, and so does one that is running already; any other ends as its command
        does. */
    method RunJob(slot: nat, unreadable: string, command: Outcome) returns (outcome: Outcome)
      requires slot < |workers| && workers[slot].Assigned?
      modifies this`workers
      ensures var job := old(workers[slot]).job;
        outcome == if ReadJob(Cfg(), store, job).None? then Failed(unreadable)
                   else if CanRun(Cfg(), store, job) then command
                   else Failed("Job " + job + " is already running")
      ensures Enabled(Cfg(), old(View()), Run(slot, outcome)) && View() == Do(Cfg(), old(View()), Run(slot, outcome))
    {
      var job := workers[slot].job;
      var record := GetJob(job);
      if record.None? {
        outcome := Failed(unreadable);
      } else if record.value.status == Running {
        outcome := Failed("Job " + job + " is already running");
      } else {
        outcome := command;
      }
      workers := workers[slot := Ran(job, outcome)];
    }

    /** FailJob or DoneJob: the job node is rewritten if it can be read. */
    method RecordJob(slot: nat)
      requires Enabled(Cfg(), View(), Record(slot))
      modifies this`workers, this`store, this`pending, this`events
      ensures View() == Do(Cfg(), old(View()), Record(slot))
      ensures store == Recording(Cfg(), old(store), old(workers[slot]).job, old(workers[slot]).outcome)
    {
      ghost var before := View();
      var job, outcome := workers[slot].job, workers[slot].outcome;
      workers := workers[slot := Recorded(job)];
      var record := GetJob(job);
      if record.Some? {
        var judged := record.value;
        match outcome {
          case Succeeded => judged := judged.(status := Done);
          case Failed(error) => judged := judged.(status := Exit, error := error);
        }
        Write(Put(JobKey(job), write(judged)));
      }
      WhatStepsWrite(Cfg(), before, Record(slot));
    }

    method DeleteAssignJob(slot: nat)
      requires Enabled(Cfg(), View(), Remove(slot))
      modifies this`workers, this`store, this`pending, this`events, this`finished
      ensures View() == Do(Cfg(), old(View()), Remove(slot))
    {
      var job := workers[slot].job;
      workers, finished := workers[slot := Idle], finished + [job];
      Write(Delete(AssignKey(name, job)));
    }

    /** All goroutines together, in any order, until none can go on: every assigned job has then been handled.
        With no slot at all the store stays as it was. */
    method Serve()
      requires Inv(Cfg(), View())
      modifies this
      ensures Inv(Cfg(), View())
      ensures slotCount >= 1 ==> SlotDraining.Quiescent(View()) && DirJobs(name, store) == {}
      ensures slotCount == 0 ==> store == old(store)
    {
      while CanFeed() || !AllWait()
        invariant Inv(Cfg(), View())
        invariant slotCount == 0 ==> store == old(store)
        decreases SlotDraining.Cost(Cfg(), View())
      {
        GoOn();
      }
      if slotCount >= 1 {
        Stuck();
      }
    }

    /** Whatever any goroutine does next. */
    method GoOn()
      requires Inv(Cfg(), View()) && (CanFeed() || !AllWait())
      modifies this
      ensures Inv(Cfg(), View())
      ensures SlotDraining.Cost(Cfg(), View()) < old(SlotDraining.Cost(Cfg(), View()))
      ensures slotCount == 0 ==> store == old(store)
    {
      if {
        case CanFeed() =>
          Feed();
        case !AllWait() =>
          var i: nat :| i < |workers| && !CanOnlyWait(i);
          Advance(i);
      }
    }

    /** Some goroutine between the store and the channel can go on. */
    predicate CanFeed()
      reads this
    {
      || !watching || listing.None? || (unsent != [] && |slots| < slotCount)
      || (hand.None? && pending != []) || (hand.Some? && |slots| < slotCount)
    }

    /** Whatever one of them does next. */
    method Feed()
      requires Inv(Cfg(), View()) && CanFeed()
      modifies this`watching, this`listing, this`unsent, this`pending, this`hand, this`slots, this`sent
      ensures Inv(Cfg(), View())
      ensures SlotDraining.Cost(Cfg(), View()) < old(SlotDraining.Cost(Cfg(), View()))
      ensures store == old(store)
    {
      if {
        case !watching =>
          Keeps(OpenWatch);
          WatchAssignJobs();
        case watching && listing.None? =>
          ghost var before := View();
          var jobs := ListAssignJobs();
          KeepsFrom(before, ListJobs(jobs));
        case unsent != [] && |slots| < slotCount =>
          Keeps(SendListed);
          SendListedJob();
        case hand.None? && pending != [] =>
          Keeps(Receive);
          HandleWatchEvt();
        case hand.Some? && |slots| < slotCount =>
          Keeps(SendWatched);
          SendWatchedJob();
      }
    }

    predicate AllWait()
      reads this
    {
      forall i: nat | i < |workers| :: CanOnlyWait(i)
    }

    predicate CanOnlyWait(i: nat)
      requires i < |workers|
      reads this
    {
      workers[i].Idle? && slots == []
    }

    /** Whatever a slot does next. */
    method Advance(i: nat)
      requires Inv(Cfg(), View()) && i < |workers| && !CanOnlyWait(i)
      modifies this
      ensures Inv(Cfg(), View())
      ensures SlotDraining.Cost(Cfg(), View()) < old(SlotDraining.Cost(Cfg(), View()))
    {
      match workers[i] {
        case Idle =>
          Keeps(Take(i));
          ReceiveJob(i);
        case Assigned(_) =>
          ghost var before := View();
          var unreadable: string, command: Outcome := *, *;
          var outcome := RunJob(i, unreadable, command);
          KeepsFrom(before, Run(i, outcome));
        case Ran(_, _) =>
          Keeps(Record(i));
          RecordJob(i);
        case Recorded(_) =>
          Keeps(Remove(i));
          DeleteAssignJob(i);
      }
    }

    lemma Keeps(step: Step)
      requires Inv(Cfg(), View()) && SlotDraining.IsServerStep(step) && Enabled(Cfg(), View(), step)
      ensures Inv(Cfg(), Do(Cfg(), View(), step))
      ensures SlotDraining.Cost(Cfg(), Do(Cfg(), View(), step)) < SlotDraining.Cost(Cfg(), View())
    {
      KeepsFrom(View(), step);
    }

    lemma KeepsFrom(before: State, step: Step)
      requires Inv(Cfg(), before) && SlotDraining.IsServerStep(step) && Enabled(Cfg(), before, step)
      ensures Inv(Cfg(), Do(Cfg(), before, step))
      ensures SlotDraining.Cost(Cfg(), Do(Cfg(), before, step)) < SlotDraining.Cost(Cfg(), before)
    {
      if before.feed.listing.None? {
        JobFeed.UnlistedSendsNothing(name, slotCount, before.feed);
      }
      StepKeeps(Cfg(), before, step);
      SlotDraining.StepCosts(Cfg(), before, step);
    }

    lemma Stuck()
      requires Inv(Cfg(), View()) && slotCount >= 1 && !CanFeed() && AllWait()
      ensures SlotDraining.Quiescent(View()) && DirJobs(name, store) == {}
    {
      assert CanOnlyWait(0);
      assert slots == [];
      forall i: nat | i < |workers|
        ensures workers[i].Idle?
      {
        assert CanOnlyWait(i);
      }
      SlotDraining.QuiescentIsEmpty(Cfg(), View());
    }
  }
}
