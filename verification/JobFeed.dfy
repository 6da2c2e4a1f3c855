/** How job IDs reach the workers: a watch on the assign directory and one listing of it, both sending
    into a bounded channel.  The last fields record what has gone through. */
module JobFeed {
  import opened Etcd

  datatype Source = FromListing | FromWatch

  datatype Sending = Sending(source: Source, job: string)

  datatype Feed = Feed(
    watching: bool,
    listing: Option<seq<string>>,  // what the listing returned, once it has been made
    unsent: seq<string>,           // the part of it not yet sent
    pending: seq<Event>,           // emitted by the watch, not yet handled
    hand: Option<string>,          // the job the watch handler is about to send
    queue: seq<string>,            // the channel
    events: seq<Event>,            // history: every event the watch emitted
    sent: seq<Sending>,            // history: every send into the channel
    taken: seq<string>)            // history: every receive from the channel

  const STOPPED := Feed(false, None, [], [], None, [], [], [], [])

  function Observe(server: string, f: Feed, e: Event): Feed {
    if f.watching && AssignDir(server) <= e.key
    then f.(pending := f.pending + [e], events := f.events + [e])
    else f
  }

  /** The watch tells of every change in the directory of its server once it is open, and of nothing else. */
  lemma WatchTellsIff(server: string, f: Feed, e: Event)
    ensures var g, dir := Observe(server, f, e), "crms/assign/" + server + "/";
      && g.pending == f.pending + (if f.watching && dir <= e.key then [e] else [])
      && g.events == f.events + (if f.watching && dir <= e.key then [e] else [])
      && g.(pending := f.pending, events := f.events) == f
  {
    assert AssignDir(server) == "crms/assign/" + server + "/";
  }

  function List(f: Feed, jobs: seq<string>): Feed {
    f.(listing := Some(jobs), unsent := jobs)
  }

  function SendListed(f: Feed): Feed
    requires f.unsent != []
  {
    f.(unsent := f.unsent[1..], queue := f.queue + [f.unsent[0]],
       sent := f.sent + [Sending(FromListing, f.unsent[0])])
  }

  /** The handler only acts on puts; a delete is dropped. */
  function Receive(server: string, f: Feed): Feed
    requires f.hand.None? && f.pending != [] && AssignDir(server) <= f.pending[0].key
  {
    f.(pending := f.pending[1..],
       hand := if f.pending[0].Put? then Some(JobOf(server, f.pending[0].key)) else None)
  }

  function SendWatched(f: Feed): Feed
    requires f.hand.Some?
  {
    f.(hand := None, queue := f.queue + [f.hand.value], sent := f.sent + [Sending(FromWatch, f.hand.value)])
  }

  function Take(f: Feed): Feed
    requires f.queue != []
  {
    f.(queue := f.queue[1..], taken := f.taken + [f.queue[0]])
  }

  // ---- Listings

  predicate Distinct(jobs: seq<string>) {
    forall i, j | 0 <= i < j < |jobs| :: jobs[i] != jobs[j]
  }

  /** The jobs assigned to a server, each once, in any order. */
  predicate IsListing(server: string, store: Store, jobs: seq<string>) {
    Distinct(jobs) && (set job | job in jobs) == DirJobs(server, store)
  }

  /** A listing in the making: the jobs behind all keys of the directory but those that are left. */
  ghost predicate Slicing(server: string, store: Store, left: set<string>, jobs: seq<string>) {
    && (forall k | k in left :: k in store && AssignDir(server) <= k)
    && Distinct(jobs)
    && (forall job :: job in jobs <==> AssignKey(server, job) in store && AssignKey(server, job) !in left)
  }

  lemma SliceNext(server: string, store: Store, left: set<string>, jobs: seq<string>, k: string)
    requires Slicing(server, store, left, jobs) && k in left
    ensures k[|AssignDir(server)|..] == JobOf(server, k)
    ensures Slicing(server, store, left - {k}, jobs + [JobOf(server, k)])
  {
    AssignKeyRoundTrip(server, k);
  }

  lemma SliceEnd(server: string, store: Store, jobs: seq<string>)
    requires Slicing(server, store, {}, jobs)
    ensures IsListing(server, store, jobs)
  {
    forall job
      ensures job in jobs <==> job in DirJobs(server, store)
    {
      DirJobsAreKeys(server, store, job);
    }
  }

  lemma {:induction false} DistinctCount(jobs: seq<string>, all: set<string>)
    requires Distinct(jobs) && (set job | job in jobs) == all
    ensures |jobs| == |all|
  {
    if jobs != [] {
      var rest := set job | job in jobs[1..];
      assert all == rest + {jobs[0]};
      DistinctCount(jobs[1..], rest);
    }
  }

  lemma SomeListing(all: set<string>) returns (jobs: seq<string>)
    ensures Distinct(jobs) && (set job | job in jobs) == all
  {
    jobs := [];
    var left := all;
    while left != {}
      invariant left <= all && (set job | job in jobs) == all - left && Distinct(jobs)
      decreases left
    {
      var job :| job in left;
      assert job !in (set j | j in jobs);
      assert (set j | j in jobs + [job]) == (set j | j in jobs) + {job};
      jobs, left := jobs + [job], left - {job};
    }
  }

  function PutJobs(server: string, events: seq<Event>): seq<string>
    requires forall e | e in events :: AssignDir(server) <= e.key
  {
    if events == [] then []
    else (if events[0].Put? then [JobOf(server, events[0].key)] else []) + PutJobs(server, events[1..])
  }

  lemma {:induction false} PutJobsAppend(server: string, events: seq<Event>, e: Event)
    requires AssignDir(server) <= e.key && forall d | d in events :: AssignDir(server) <= d.key
    ensures PutJobs(server, events + [e]) ==
            PutJobs(server, events) + (if e.Put? then [JobOf(server, e.key)] else [])
  {
    if events == [] {
      assert [] + [e] == [e] && [e][1..] == [];
    } else {
      var head := if events[0].Put? then [JobOf(server, events[0].key)] else [];
      PutJobsAppend(server, events[1..], e);
      assert (events + [e])[1..] == events[1..] + [e] && (events + [e])[0] == events[0];
      Regroup(head, PutJobs(server, events[1..]), if e.Put? then [JobOf(server, e.key)] else []);
    }
  }

  lemma Regroup<T>(a: seq<T>, b: seq<T>, c: seq<T>)
    ensures a + (b + c) == a + b + c
  {
  }

  lemma Shift<T>(a: seq<T>, b: seq<T>)
    requires b != []
    ensures a + [b[0]] + b[1..] == a + b
  {
  }

  /** The jobs one source sent, in order. */
  function By(sent: seq<Sending>, source: Source): seq<string> {
    if sent == [] then []
    else By(sent[..|sent| - 1], source) +
         (if sent[|sent| - 1].source == source then [sent[|sent| - 1].job] else [])
  }

  function Jobs(sent: seq<Sending>): seq<string> {
    seq(|sent|, i requires 0 <= i < |sent| => sent[i].job)
  }

  lemma SentAppend(sent: seq<Sending>, s: Sending)
    ensures forall source ::
      By(sent + [s], source) == By(sent, source) + (if s.source == source then [s.job] else [])
    ensures Jobs(sent + [s]) == Jobs(sent) + [s.job]
  {
    assert (sent + [s])[..|sent|] == sent;
  }

  function Hand(f: Feed): seq<string> {
    if f.hand.Some? then [f.hand.value] else []
  }

  /** The exact bookkeeping of the feed.  Each source sends its jobs in its own order and none twice; what
      was sent is what was taken, in that order, followed by what is in the channel. */
  ghost predicate FeedInv(server: string, capacity: nat, f: Feed) {
    && |f.queue| <= capacity
    && (forall e | e in f.events :: AssignDir(server) <= e.key)
    && (forall e | e in f.pending :: AssignDir(server) <= e.key)
    && By(f.sent, FromListing) + f.unsent == (if f.listing.Some? then f.listing.value else [])
    && By(f.sent, FromWatch) + Hand(f) + PutJobs(server, f.pending) == PutJobs(server, f.events)
    && Jobs(f.sent) == f.taken + f.queue
    && (!f.watching ==> f.pending == [] && f.hand.None?)
  }

  /** The job is somewhere between the store and a worker. */
  ghost predicate InFlight(server: string, f: Feed, job: string)
    requires forall e | e in f.pending :: AssignDir(server) <= e.key
  {
    || job in f.unsent
    || job in PutJobs(server, f.pending)
    || f.hand == Some(job)
    || job in f.queue
  }

  lemma OpenKeeps(server: string, capacity: nat, f: Feed)
    requires FeedInv(server, capacity, f)
    ensures FeedInv(server, capacity, f.(watching := true)) && FeedInv(server, capacity, STOPPED)
  {
  }

  lemma ListKeeps(server: string, capacity: nat, f: Feed, jobs: seq<string>)
    requires FeedInv(server, capacity, f) && f.listing.None?
    ensures FeedInv(server, capacity, List(f, jobs))
  {
    assert By(f.sent, FromListing) == [] && [] + jobs == jobs;
  }

  lemma UnlistedSendsNothing(server: string, capacity: nat, f: Feed)
    requires FeedInv(server, capacity, f) && f.listing.None?
    ensures f.unsent == []
  {
    assert By(f.sent, FromListing) + f.unsent == [];
  }

  lemma ObserveKeeps(server: string, capacity: nat, f: Feed, e: Event)
    requires FeedInv(server, capacity, f)
    ensures FeedInv(server, capacity, Observe(server, f, e))
  {
    if f.watching && AssignDir(server) <= e.key {
      PutJobsAppend(server, f.pending, e);
      PutJobsAppend(server, f.events, e);
      Regroup(By(f.sent, FromWatch) + Hand(f), PutJobs(server, f.pending),
              if e.Put? then [JobOf(server, e.key)] else []);
    }
  }

  lemma ObserveKeepsInFlight(server: string, capacity: nat, f: Feed, e: Event, job: string)
    requires FeedInv(server, capacity, f)
    ensures forall d | d in Observe(server, f, e).pending :: AssignDir(server) <= d.key
    ensures InFlight(server, f, job) ==> InFlight(server, Observe(server, f, e), job)
    ensures f.watching && e.Put? && e.key == AssignKey(server, job) ==> InFlight(server, Observe(server, f, e), job)
  {
    if f.watching && AssignDir(server) <= e.key {
      PutJobsAppend(server, f.pending, e);
      JobOfAssignKey(server, job);
    }
  }

  lemma SendListedKeeps(server: string, capacity: nat, f: Feed)
    requires FeedInv(server, capacity, f) && f.unsent != [] && |f.queue| < capacity
    ensures FeedInv(server, capacity, SendListed(f))
  {
    var job := f.unsent[0];
    SentAppend(f.sent, Sending(FromListing, job));
    Shift(By(f.sent, FromListing), f.unsent);
    Regroup(f.taken, f.queue, [job]);
    assert By(f.sent, FromWatch) + [] == By(f.sent, FromWatch);
  }

  lemma ReceiveKeeps(server: string, capacity: nat, f: Feed)
    requires FeedInv(server, capacity, f) && f.hand.None? && f.pending != []
    ensures FeedInv(server, capacity, Receive(server, f))
  {
    var g := Receive(server, f);
    Regroup(By(f.sent, FromWatch), Hand(g), PutJobs(server, g.pending));
    assert By(f.sent, FromWatch) + [] == By(f.sent, FromWatch);
  }

  lemma SendWatchedKeeps(server: string, capacity: nat, f: Feed)
    requires FeedInv(server, capacity, f) && f.hand.Some? && |f.queue| < capacity
    ensures FeedInv(server, capacity, SendWatched(f))
  {
    var job := f.hand.value;
    SentAppend(f.sent, Sending(FromWatch, job));
    Regroup(f.taken, f.queue, [job]);
    assert By(f.sent, FromListing) + [] == By(f.sent, FromListing);
    assert By(f.sent, FromWatch) + [job] + [] == By(f.sent, FromWatch) + [job];
  }

  lemma MovingKeepsInFlight(server: string, capacity: nat, f: Feed, job: string)
    requires FeedInv(server, capacity, f) && InFlight(server, f, job)
    ensures f.unsent != [] ==> InFlight(server, SendListed(f), job)
    ensures f.hand.Some? ==> InFlight(server, SendWatched(f), job)
    ensures f.hand.None? && f.pending != [] ==> InFlight(server, Receive(server, f), job)
  {
  }

  lemma TakeKeeps(server: string, capacity: nat, f: Feed)
    requires FeedInv(server, capacity, f) && f.queue != []
    ensures FeedInv(server, capacity, Take(f))
  {
    Shift(f.taken, f.queue);
  }

  lemma TakeKeepsInFlight(server: string, capacity: nat, f: Feed, job: string)
    requires FeedInv(server, capacity, f) && f.queue != [] && InFlight(server, f, job)
    ensures InFlight(server, Take(f), job) || job == f.queue[0]
  {
  }

  // ---- Work that is left

  function Sum(costs: seq<nat>): nat {
    if costs == [] then 0 else Sum(costs[..|costs| - 1]) + costs[|costs| - 1]
  }

  lemma {:induction false} SumAfter(costs: seq<nat>, i: nat, c: nat)
    requires i < |costs|
    ensures Sum(costs[i := c]) + costs[i] == Sum(costs) + c
  {
    var last := |costs| - 1;
    if i == last {
      assert costs[i := c][..last] == costs[..last];
    } else {
      SumAfter(costs[..last], i, c);
      assert costs[i := c][..last] == costs[..last][i := c];
    }
  }

  /** What undelivered events will cost, when a put costs so much. */
  function PendingCost(events: seq<Event>, put: nat): nat {
    if events == [] then 0 else (if events[0].Put? then put else 1) + PendingCost(events[1..], put)
  }

  lemma {:induction false} PendingCostAppend(events: seq<Event>, e: Event, put: nat)
    ensures PendingCost(events + [e], put) == PendingCost(events, put) + (if e.Put? then put else 1)
  {
    if events == [] {
    } else {
      PendingCostAppend(events[1..], e, put);
      assert (events + [e])[1..] == events[1..] + [e];
    }
  }

  lemma Shrinks(jobs: set<string>, job: string)
    ensures |jobs - {job}| <= |jobs|
  {
    if job in jobs {
      assert jobs == (jobs - {job}) + {job};
    } else {
      assert jobs - {job} == jobs;
    }
  }

  // ---- Counts

  /** What the bookkeeping says about counts: every job the sources produced is still on its way or was taken,
      as often as it was produced. */
  lemma NothingAppearsOrVanishes(server: string, capacity: nat, f: Feed)
    requires FeedInv(server, capacity, f)
    ensures multiset(if f.listing.Some? then f.listing.value else []) + multiset(PutJobs(server, f.events))
            == multiset(f.unsent) + multiset(PutJobs(server, f.pending)) + multiset(Hand(f))
               + multiset(f.queue) + multiset(f.taken)
  {
    SplitBySource(f.sent);
    AddUp(By(f.sent, FromListing), f.unsent, By(f.sent, FromWatch), Hand(f), PutJobs(server, f.pending), f.taken,
          f.queue);
  }

  lemma AddUp(listed: seq<string>, unsent: seq<string>, watched: seq<string>, hand: seq<string>,
              pending: seq<string>, taken: seq<string>, queue: seq<string>)
    requires multiset(taken + queue) == multiset(listed) + multiset(watched)
    ensures multiset(listed + unsent) + multiset(watched + hand + pending)
            == multiset(unsent) + multiset(pending) + multiset(hand) + multiset(queue) + multiset(taken)
  {
    assert multiset(taken + queue) == multiset(taken) + multiset(queue);
    assert multiset(listed + unsent) == multiset(listed) + multiset(unsent);
    assert multiset(watched + hand + pending) == multiset(watched) + multiset(hand) + multiset(pending);
    assert multiset(listed) + multiset(unsent) + (multiset(watched) + multiset(hand) + multiset(pending))
        == multiset(unsent) + multiset(pending) + multiset(hand) + (multiset(listed) + multiset(watched));
  }

  lemma {:induction false} SplitBySource(sent: seq<Sending>)
    ensures multiset(Jobs(sent)) == multiset(By(sent, FromListing)) + multiset(By(sent, FromWatch))
  {
    if sent == [] {
    } else {
      var front, last := sent[..|sent| - 1], sent[|sent| - 1];
      SplitBySource(front);
      SentAppend(front, last);
      assert front + [last] == sent;
      OneMore(Jobs(front), By(front, FromListing), By(front, FromWatch), last.job);
    }
  }

  lemma OneMore<T>(all: seq<T>, left: seq<T>, right: seq<T>, x: T)
    requires multiset(all) == multiset(left) + multiset(right)
    ensures multiset(all + [x]) == multiset(left + [x]) + multiset(right + [])
    ensures multiset(all + [x]) == multiset(left + []) + multiset(right + [x])
  {
    assert right + [] == right && left + [] == left;
  }
}
