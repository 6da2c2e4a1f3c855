/** The client's picture of the jobs: what a sequence of puts makes of it, whether they come from a snapshot or
    from the watch. */
module JobCache {
  import opened Etcd
  import opened Strings

  const NEW: string := "new"
  const STATE: string := "state"
  const STDOUTERR: string := "stdouterr"

  datatype JobView = JobView(id: string, command: seq<string>, status: string, stdouterr: string)

  type Jobs = map<string, JobView>

  /** How a job node's value is read as a command; JSON is not part of this model. */
  type Decoder = string -> Option<seq<string>>

  function NewJob(id: string): JobView { JobView(id, [], NEW, "") }

  function Get(jobs: Jobs, id: string): JobView {
    if id in jobs then jobs[id] else NewJob(id)
  }

  /** The path of a job key below the directory of all jobs. */
  function Path(key: string): (r: seq<string>)
    requires JOB_PREFIX <= key
    ensures |r| >= 1
  {
    PathIsBelow(key);
    Split(key, '/')[2..]
  }

  lemma PathIsBelow(key: string)
    requires JOB_PREFIX <= key
    ensures Split(key, '/') == ["crms", "job"] + Split(key[|JOB_PREFIX|..], '/')
  {
    var rest := key[|JOB_PREFIX|..];
    assert key == "crms" + ['/'] + ("job" + ['/'] + rest);
    SplitAtSep("crms", '/', "job" + ['/'] + rest);
    SplitAtSep("job", '/', rest);
    SplitPlain("crms", '/');
    SplitPlain("job", '/');
  }

  function UpdateView(decode: Decoder, job: JobView, path: seq<string>, value: string): JobView
    requires |path| >= 1
  {
    if |path| == 1 then
      var command := decode(value);
      job.(id := path[0], command := if command.Some? then command.value else job.command)
    else if |path| == 2 then
      if path[1] == STATE then job.(status := value) else job
    else if |path| == 3 then
      if path[1] == STATE && path[2] == STDOUTERR then job.(stdouterr := value) else job
    else job
  }

  function Update(decode: Decoder, jobs: Jobs, key: string, value: string): Jobs
    requires JOB_PREFIX <= key
  {
    var path := Path(key);
    jobs[path[0] := UpdateView(decode, Get(jobs, path[0]), path, value)]
  }

  /** What the client does with one event: deletes are ignored. */
  function Handle(decode: Decoder, jobs: Jobs, e: Event): Jobs {
    if e.Put? && JOB_PREFIX <= e.key then Update(decode, jobs, e.key, e.value) else jobs
  }

  function Absorb(decode: Decoder, jobs: Jobs, events: seq<Event>): Jobs {
    if events == [] then jobs
    else Handle(decode, Absorb(decode, jobs, events[..|events| - 1]), events[|events| - 1])
  }

  // ---- Which key feeds which field

  lemma JobPath(id: string)
    requires '/' !in id
    ensures JOB_PREFIX <= JobKey(id) && Path(JobKey(id)) == [id]
  {
    PathIsBelow(JobKey(id));
    assert JobKey(id)[|JOB_PREFIX|..] == id;
    SplitPlain(id, '/');
  }

  lemma PathBelow(key: string, name: string)
    requires JOB_PREFIX <= key && '/' !in name
    ensures JOB_PREFIX <= key + ['/'] + name && Path(key + ['/'] + name) == Path(key) + [name]
  {
    assert (key + ['/'] + name)[..|JOB_PREFIX|] == key[..|JOB_PREFIX|];
    PathIsBelow(key);
    SplitAtSep(key, '/', name);
    SplitPlain(name, '/');
    assert (Split(key, '/') + [name])[2..] == Split(key, '/')[2..] + [name];
  }

  lemma PathsOf(id: string)
    requires '/' !in id
    ensures JOB_PREFIX <= JobKey(id) && Path(JobKey(id)) == [id]
    ensures JOB_PREFIX <= StateKey(id) && Path(StateKey(id)) == [id, STATE]
    ensures JOB_PREFIX <= OutputKey(id) && Path(OutputKey(id)) == [id, STATE, STDOUTERR]
  {
    JobPath(id);
    PathBelow(JobKey(id), STATE);
    assert StateKey(id) == JobKey(id) + ['/'] + STATE;
    PathBelow(StateKey(id), STDOUTERR);
    assert OutputKey(id) == StateKey(id) + ['/'] + STDOUTERR;
  }

  /** A key is determined by its path. */
  lemma PathsAreKeys(key: string, other: string)
    requires JOB_PREFIX <= key && JOB_PREFIX <= other && Path(key) == Path(other)
    ensures key == other
  {
    PathIsBelow(key);
    PathIsBelow(other);
    JoinSplit(key, '/');
    JoinSplit(other, '/');
  }

  /** An event changes the fields of a job only through that job's own three keys. */
  lemma HandleFields(decode: Decoder, jobs: Jobs, e: Event, id: string)
    requires '/' !in id
    ensures var before, after := Get(jobs, id), Get(Handle(decode, jobs, e), id);
      && after.status == (if e.Put? && e.key == StateKey(id) then e.value else before.status)
      && after.stdouterr == (if e.Put? && e.key == OutputKey(id) then e.value else before.stdouterr)
      && after.command == (if e.Put? && e.key == JobKey(id) && decode(e.value).Some? then decode(e.value).value
                           else before.command)
  {
    PathsOf(id);
    if e.Put? && JOB_PREFIX <= e.key {
      if Path(e.key) == Path(JobKey(id)) {
        PathsAreKeys(e.key, JobKey(id));
      }
      if Path(e.key) == Path(StateKey(id)) {
        PathsAreKeys(e.key, StateKey(id));
      }
      if Path(e.key) == Path(OutputKey(id)) {
        PathsAreKeys(e.key, OutputKey(id));
      }
    }
  }

  // ---- The last writer wins

  function LastPut(events: seq<Event>, key: string, default: string): string {
    if events == [] then default
    else
      var last := events[|events| - 1];
      if last.Put? && last.key == key then last.value else LastPut(events[..|events| - 1], key, default)
  }

  function LastCommand(decode: Decoder, events: seq<Event>, key: string, default: seq<string>): seq<string> {
    if events == [] then default
    else
      var last := events[|events| - 1];
      if last.Put? && last.key == key && decode(last.value).Some? then decode(last.value).value
      else LastCommand(decode, events[..|events| - 1], key, default)
  }

  /** Every field is the last value put to its key, and what it was before if there was no put; for the command,
      the last value that could be read. */
  lemma {:induction false} LastWriterWins(decode: Decoder, jobs: Jobs, events: seq<Event>, id: string)
    requires '/' !in id
    ensures var before, after := Get(jobs, id), Get(Absorb(decode, jobs, events), id);
      && after.status == LastPut(events, StateKey(id), before.status)
      && after.stdouterr == LastPut(events, OutputKey(id), before.stdouterr)
      && after.command == LastCommand(decode, events, JobKey(id), before.command)
  {
    if events != [] {
      var front := events[..|events| - 1];
      LastWriterWins(decode, jobs, front, id);
      HandleFields(decode, Absorb(decode, jobs, front), events[|events| - 1], id);
    }
  }

  // ---- Which jobs are known

  predicate Mentions(e: Event, id: string) {
    e.Put? && JOB_PREFIX <= e.key && Path(e.key)[0] == id
  }

  predicate WellNamed(jobs: Jobs) {
    forall id | id in jobs :: jobs[id].id == id && '/' !in id
  }

  lemma HandleKnows(decode: Decoder, jobs: Jobs, e: Event)
    requires WellNamed(jobs)
    ensures WellNamed(Handle(decode, jobs, e))
    ensures forall id :: id in Handle(decode, jobs, e) <==> id in jobs || Mentions(e, id)
  {
    if e.Put? && JOB_PREFIX <= e.key {
      PathIsBelow(e.key);
      SplitHasNoSep(e.key, '/');
      assert Path(e.key)[0] == Split(e.key, '/')[2];
    }
  }

  lemma {:induction false} KnownJobs(decode: Decoder, jobs: Jobs, events: seq<Event>, id: string)
    requires WellNamed(jobs)
    ensures WellNamed(Absorb(decode, jobs, events))
    ensures id in Absorb(decode, jobs, events) <==> id in jobs || exists e :: e in events && Mentions(e, id)
  {
    if events != [] {
      var front, last := events[..|events| - 1], events[|events| - 1];
      KnownJobs(decode, jobs, front, id);
      HandleKnows(decode, Absorb(decode, jobs, front), last);
      assert forall e :: e in events <==> e in front || e == last;
    }
  }

  // ---- Snapshots

  /** The key-value pairs below the directory of all jobs, in any order, as puts. */
  ghost predicate IsSnapshot(store: Store, events: seq<Event>) {
    && (forall e | e in events :: e.Put? && JOB_PREFIX <= e.key && e.key in store && store[e.key] == e.value)
    && (forall k | k in store && JOB_PREFIX <= k :: Put(k, store[k]) in events)
  }

  lemma {:induction false} LastPutOfSnapshot(events: seq<Event>, store: Store, key: string, default: string)
    requires forall e | e in events :: e.Put? && e.key in store && store[e.key] == e.value
    ensures LastPut(events, key, default) ==
            if key in store && Put(key, store[key]) in events then store[key] else default
  {
    if events != [] {
      var front, last := events[..|events| - 1], events[|events| - 1];
      LastPutOfSnapshot(front, store, key, default);
      assert events == front + [last];
    }
  }

  lemma {:induction false} LastCommandOfSnapshot(decode: Decoder, events: seq<Event>, store: Store, key: string,
                                                 default: seq<string>)
    requires forall e | e in events :: e.Put? && e.key in store && store[e.key] == e.value
    ensures LastCommand(decode, events, key, default) ==
            if key in store && Put(key, store[key]) in events && decode(store[key]).Some? then decode(store[key]).value
            else default
  {
    if events != [] {
      var front, last := events[..|events| - 1], events[|events| - 1];
      LastCommandOfSnapshot(decode, front, store, key, default);
      assert events == front + [last];
    }
  }

  /** What a snapshot sets: status and output become the stored values where there are any. */
  lemma SnapshotFields(decode: Decoder, jobs: Jobs, store: Store, events: seq<Event>, id: string)
    requires '/' !in id && IsSnapshot(store, events)
    ensures var before, after := Get(jobs, id), Get(Absorb(decode, jobs, events), id);
      && after.status == (if StateKey(id) in store then store[StateKey(id)] else before.status)
      && after.stdouterr == (if OutputKey(id) in store then store[OutputKey(id)] else before.stdouterr)
      && after.command == (if JobKey(id) in store && decode(store[JobKey(id)]).Some?
                           then decode(store[JobKey(id)]).value else before.command)
  {
    PathsOf(id);
    LastWriterWins(decode, jobs, events, id);
    LastPutOfSnapshot(events, store, StateKey(id), Get(jobs, id).status);
    LastPutOfSnapshot(events, store, OutputKey(id), Get(jobs, id).stdouterr);
    LastCommandOfSnapshot(decode, events, store, JobKey(id), Get(jobs, id).command);
  }

  /** The order in which a snapshot lists its keys does not matter. */
  lemma SnapshotOrderIsIrrelevant(decode: Decoder, jobs: Jobs, store: Store, events: seq<Event>, others: seq<Event>)
    requires WellNamed(jobs) && IsSnapshot(store, events) && IsSnapshot(store, others)
    ensures Absorb(decode, jobs, events) == Absorb(decode, jobs, others)
  {
    var a, b := Absorb(decode, jobs, events), Absorb(decode, jobs, others);
    forall id
      ensures id in a <==> id in b
      ensures id in a ==> a[id] == b[id]
    {
      KnownJobs(decode, jobs, events, id);
      KnownJobs(decode, jobs, others, id);
      if e :| e in events && Mentions(e, id) {
        assert e in others;
      }
      if e :| e in others && Mentions(e, id) {
        assert e in events;
      }
      if id in a {
        SnapshotFields(decode, jobs, store, events, id);
        SnapshotFields(decode, jobs, store, others, id);
      }
    }
  }

  // ---- First mention

  /** A job of which a client hears for the first time is new, has no command and no output, but for what the put
      says. */
  lemma FirstMention(decode: Decoder, jobs: Jobs, id: string, value: string)
    requires '/' !in id && id !in jobs
    ensures Handle(decode, jobs, Put("crms/job/" + id, value)) ==
            jobs[id := JobView(id, if decode(value).Some? then decode(value).value else [], "new", "")]
    ensures Handle(decode, jobs, Put("crms/job/" + id + "/state", value)) == jobs[id := JobView(id, [], value, "")]
    ensures Handle(decode, jobs, Put("crms/job/" + id + "/state/stdouterr", value)) ==
            jobs[id := JobView(id, [], "new", value)]
    ensures Handle(decode, jobs, Delete("crms/job/" + id + "/state")) == jobs
  {
    PathsOf(id);
    assert JobKey(id) == "crms/job/" + id && StateKey(id) == "crms/job/" + id + "/state";
    assert OutputKey(id) == "crms/job/" + id + "/state/stdouterr";
  }
}
