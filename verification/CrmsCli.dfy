/** The client's cache as the objects it updates in place.  Callers keep the job and server objects they were
    given, so updates must reach those very objects. */
module CrmsCli {
  import opened Etcd
  import opened Strings
  import opened JobCache
  import opened ServerCache
  import JobFeed

  class Job {
    var id: string
    var command: seq<string>
    var status: string
    var stdouterr: string

    constructor (id: string)
      ensures Value() == NewJob(id)
    {
      this.id, command, status, stdouterr := id, [], NEW, "";
    }

    function Value(): JobView
      reads this
    {
      JobView(id, command, status, stdouterr)
    }
  }

  class Server {
    var name: string
    var ability: int
    var jobs: set<string>

    constructor (name: string, ability: int)
      ensures Value() == ServerView(name, ability, {})
    {
      this.name, this.ability, jobs := name, ability, {};
    }

    function Value(): ServerView
      reads this
    {
      ServerView(name, ability, jobs)
    }
  }

  class CrmsCli {
    const decode: Decoder
    var jobs: map<string, Job>
    var servers: map<string, Server>

    /** No two names share an object. */
    ghost predicate Valid()
      reads this
    {
      && (forall a, b | a in jobs && b in jobs && a != b :: jobs[a] != jobs[b])
      && (forall a, b | a in servers && b in servers && a != b :: servers[a] != servers[b])
    }

    ghost function JobViews(): Jobs
      reads this, jobs.Values
    {
      map id | id in jobs :: jobs[id].Value()
    }

    ghost function ServerViews(): Servers
      reads this, servers.Values
    {
      map name | name in servers :: servers[name].Value()
    }

    constructor (decode: Decoder)
      ensures Valid() && this.decode == decode && jobs == map[] && servers == map[]
    {
      this.decode := decode;
      jobs, servers := map[], map[];
    }

    method GetJobOrCreateIfAbsent(id: string) returns (job: Job)
      requires Valid()
      modifies this`jobs
      ensures Valid() && id in jobs && jobs[id] == job
      ensures if id in old(jobs) then jobs == old(jobs) else fresh(job) && jobs == old(jobs)[id := job]
      ensures job.Value() == Get(old(JobViews()), id)
    {
      if id in jobs {
        job := jobs[id];
      } else {
        job := new Job(id);
        jobs := jobs[id := job];
      }
    }

    /** Sets the field a path leads to. */
    method SetField(job: Job, ks: seq<string>, v: string) returns (ok: bool)
      requires |ks| >= 1
      modifies job
      ensures job.Value() == UpdateView(decode, old(job.Value()), ks, v)
      ensures ok <==> (|ks| == 1 ==> decode(v).Some?)
    {
      ok := true;
      if |ks| == 1 {
        job.id := ks[0];
        var command := decode(v);
        if command.Some? {
          job.command := command.value;
        } else {
          ok := false;
        }
      } else if |ks| == 2 {
        if ks[1] == STATE {
          job.status := v;
        }
      } else if |ks| == 3 {
        if ks[1] == STATE && ks[2] == STDOUTERR {
          job.stdouterr := v;
        }
      }
    }

    /** One key and its value, from a snapshot or from the watch.  Known jobs keep their objects. */
    method UpdateJob(k: string, v: string) returns (ok: bool)
      requires Valid() && JOB_PREFIX <= k
      modifies this`jobs, jobs.Values
      ensures Valid() && JobViews() == Update(decode, old(JobViews()), k, v)
      ensures forall id | id in old(jobs) :: id in jobs && jobs[id] == old(jobs[id])
      ensures forall id | id in jobs && id !in old(jobs) :: fresh(jobs[id])
      ensures ok <==> (|Path(k)| == 1 ==> decode(v).Some?)
    {
      PathIsBelow(k);
      var ks := Split(k, '/')[2..];
      assert ks == Path(k);
      var job := GetJobOrCreateIfAbsent(ks[0]);
      ok := SetField(job, ks, v);
    }

    /** The loop over the pairs of a snapshot. */
    method GetJobs(kvs: seq<(string, string)>)
      requires Valid() && forall kv | kv in kvs :: JOB_PREFIX <= kv.0
      modifies this`jobs, jobs.Values
      ensures Valid() && JobViews() == Absorb(decode, old(JobViews()), Puts(kvs))
      ensures forall id | id in old(jobs) :: id in jobs && jobs[id] == old(jobs[id])
      ensures forall id | id in jobs && id !in old(jobs) :: fresh(jobs[id])
    {
      ghost var events := Puts(kvs);
      for i := 0 to |kvs|
        invariant Valid() && JobViews() == Absorb(decode, old(JobViews()), events[..i])
        invariant forall id | id in old(jobs) :: id in jobs && jobs[id] == old(jobs[id])
        invariant forall id | id in jobs && id !in old(jobs) :: fresh(jobs[id])
      {
        var kv := kvs[i];
        var ok := UpdateJob(kv.0, kv.1);
        AbsorbNext(decode, old(JobViews()), events, i);
      }
      assert events[..|kvs|] == events;
    }

    /** The loop over the events of the watch: puts update, deletes are ignored. */
    method WatchJobs(events: seq<Event>)
      requires Valid() && forall e | e in events :: JOB_PREFIX <= e.key
      modifies this`jobs, jobs.Values
      ensures Valid() && JobViews() == Absorb(decode, old(JobViews()), events)
      ensures forall id | id in old(jobs) :: id in jobs && jobs[id] == old(jobs[id])
      ensures forall id | id in jobs && id !in old(jobs) :: fresh(jobs[id])
    {
      for i := 0 to |events|
        invariant Valid() && JobViews() == Absorb(decode, old(JobViews()), events[..i])
        invariant forall id | id in old(jobs) :: id in jobs && jobs[id] == old(jobs[id])
        invariant forall id | id in jobs && id !in old(jobs) :: fresh(jobs[id])
      {
        if events[i].Put? {
          var ok := UpdateJob(events[i].key, events[i].value);
        }
        AbsorbNext(decode, old(JobViews()), events, i);
      }
      assert events[..|events|] == events;
    }

    /** The server a stored pair describes, with the jobs assigned to it. */
    method ReadServer(store: Store, later: Reads, k: string) returns (server: Server?)
      requires k in store && SERVER_PREFIX <= k
      ensures (server == null) == Stored(store, ServerOf(k)).None?
      ensures server != null ==> fresh(server)
      ensures server != null ==>
        server.Value() == ServerView(ServerOf(k), Stored(store, ServerOf(k)).value,
                                     DirJobs(ServerOf(k), later(ServerOf(k))))
    {
      var name := k[|SERVER_PREFIX|..];
      ServerKeyRoundTrip(k, name);
      server := null;
      if store[k] != CLOSE {
        var ability := Atoi(store[k]);
        if ability.Some? {
          var jobIds := GetAssignJobs(later(name), name);
          var made := new Server(name, ability.value);
          for i := 0 to |jobIds|
            invariant made.name == name && made.ability == ability.value
            invariant made.jobs == set job | job in jobIds[..i]
          {
            made.jobs := made.jobs + {jobIds[i]};
            assert jobIds[..i + 1] == jobIds[..i] + [jobIds[i]];
          }
          assert jobIds[..|jobIds|] == jobIds;
          server := made;
        }
      }
    }

    method Enter(name: string, server: Server)
      requires Valid() && server !in servers.Values
      modifies this`servers
      ensures Valid() && servers == old(servers)[name := server]
      ensures ServerViews() == old(ServerViews())[name := server.Value()]
    {
      servers := servers[name := server];
    }

    /** The first picture of the servers: one pass over the pairs below the server directory, with one more read for
        each server's jobs. */
    method GetServers(store: Store, later: Reads)
      requires Valid()
      modifies this`servers
      ensures Valid() && ServerViews() == Snapshot(store, later)
      ensures forall name | name in servers :: fresh(servers[name])
    {
      servers := map[];
      var kvs := set k | k in store && SERVER_PREFIX <= k;
      ReadNone(store, later, kvs);
      while kvs != {}
        invariant kvs <= (set k | k in store && SERVER_PREFIX <= k)
        invariant Valid() && ServerViews() == ReadWithout(store, later, kvs)
        invariant forall name | name in servers :: fresh(servers[name])
        decreases kvs
      {
        var k :| k in kvs;
        ReadNext(store, later, kvs, k);
        kvs := kvs - {k};
      }
    }

    /** One round of the loop, seen from the picture so far. */
    method ReadNext(store: Store, later: Reads, ghost kvs: set<string>, k: string)
      requires Valid() && k in kvs && k in store && SERVER_PREFIX <= k
      requires ServerViews() == ReadWithout(store, later, kvs)
      modifies this`servers
      ensures Valid() && ServerViews() == ReadWithout(store, later, kvs - {k})
      ensures forall name | name in servers :: fresh(servers[name]) ||
                (name in old(servers) && servers[name] == old(servers[name]))
    {
      ReadPair(store, later, k);
      ReadOne(store, later, kvs, k);
    }

    /** One stored pair: a server is entered with its assigned jobs, anything else is passed over. */
    method ReadPair(store: Store, later: Reads, k: string)
      requires Valid() && k in store && SERVER_PREFIX <= k
      modifies this`servers
      ensures Valid()
      ensures var name := ServerOf(k);
        if Stored(store, name).None? then servers == old(servers)
        else name in servers && fresh(servers[name]) && servers == old(servers)[name := servers[name]]
      ensures var name, stored := ServerOf(k), Stored(store, ServerOf(k));
        stored.Some? ==>
          ServerViews() == old(ServerViews())[name := ServerView(name, stored.value, DirJobs(name, later(name)))]
    {
      var server := ReadServer(store, later, k);
      if server != null {
        Enter(k[|SERVER_PREFIX|..], server);
      }
    }

    /** The loop over the keys of a server's assign directory. */
    method GetAssignJobs(store: Store, server: string) returns (jobs: seq<string>)
      ensures JobFeed.IsListing(server, store, jobs)
    {
      var prefix := AssignDir(server);
      var kvs := set k | k in store && prefix <= k;
      jobs := [];
      while kvs != {}
        invariant JobFeed.Slicing(server, store, kvs, jobs)
        decreases kvs
      {
        var k :| k in kvs;
        JobFeed.SliceNext(server, store, kvs, jobs, k);
        kvs, jobs := kvs - {k}, jobs + [k[|prefix|..]];
      }
      JobFeed.SliceEnd(server, store, jobs);
    }

    /** One event of the server watch. */
    method WatchServer(e: Event)
      requires Valid() && SERVER_PREFIX <= e.key
      modifies this`servers, servers.Values
      ensures Valid() && ServerViews() == HandleServer(old(ServerViews()), e)
      ensures forall name | name in old(servers) && name in servers :: servers[name] == old(servers[name])
    {
      var name := e.key[|SERVER_PREFIX|..];
      match e {
        case Delete(_) => servers := servers - {name};
        case Put(_, v) =>
          if v == CLOSE {
            servers := servers - {name};
          } else {
            var ability := Atoi(v);
            if ability.Some? {
              if name in servers {
                servers[name].ability := ability.value;
              } else {
                var server := new Server(name, ability.value);
                Enter(name, server);
              }
            }
          }
      }
    }

    /** One event of the assign watch. */
    method WatchAssign(e: Event)
      requires Valid() && ASSIGN_PREFIX <= e.key && WellFormed(e)
      modifies servers.Values
      ensures Valid() && ServerViews() == HandleAssign(old(ServerViews()), e)
    {
      var ks := Split(e.key, '/')[2..];
      if ks[0] in servers {
        var server := servers[ks[0]];
        match e {
          case Delete(_) => server.jobs := server.jobs - {ks[1]};
          case Put(_, _) => server.jobs := server.jobs + {ks[1]};
        }
      }
    }
  }

  /** The part of the first picture that does not depend on some keys. */
  function ReadWithout(store: Store, later: Reads, kvs: set<string>): Servers {
    map name | name in Snapshot(store, later) && ServerKey(name) !in kvs :: Snapshot(store, later)[name]
  }

  lemma ReadNone(store: Store, later: Reads, kvs: set<string>)
    requires kvs == set k | k in store && SERVER_PREFIX <= k
    ensures ReadWithout(store, later, kvs) == map[]
  {
    forall name | name in Snapshot(store, later)
      ensures ServerKey(name) in kvs
    {
      SnapshotIsStored(store, later, name);
      ServerKeyRoundTrip("", name);
    }
  }

  lemma ReadOne(store: Store, later: Reads, kvs: set<string>, k: string)
    requires k in kvs && SERVER_PREFIX <= k
    ensures var name := ServerOf(k);
            ReadWithout(store, later, kvs - {k}) ==
              if Stored(store, name).None? then ReadWithout(store, later, kvs)
              else ReadWithout(store, later, kvs)[
                name := ServerView(name, Stored(store, name).value, DirJobs(name, later(name)))]
  {
    SnapshotIsStored(store, later, ServerOf(k));
    forall name
      ensures ServerKey(name) == k <==> name == ServerOf(k)
    {
      ServerKeyRoundTrip(k, name);
    }
  }

  function Puts(kvs: seq<(string, string)>): seq<Event> {
    seq(|kvs|, i requires 0 <= i < |kvs| => Put(kvs[i].0, kvs[i].1))
  }

  lemma AbsorbNext(decode: Decoder, jobs: Jobs, events: seq<Event>, i: nat)
    requires i < |events|
    ensures Absorb(decode, jobs, events[..i + 1]) == Handle(decode, Absorb(decode, jobs, events[..i]), events[i])
  {
    assert events[..i + 1][..i] == events[..i];
  }
}
