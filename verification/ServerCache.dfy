/** The client's picture of the servers and of the jobs assigned to them, kept up to date by two watches that
    advance independently. */
module ServerCache {
  import opened Etcd
  import opened Strings

  const CLOSE: string := "close"

  datatype ServerView = ServerView(name: string, ability: int, jobs: set<string>)

  type Servers = map<string, ServerView>

  /** What a stored value says of a server: nothing if it is closed or cannot be read. */
  function Ability(value: string): Option<int> {
    if value == CLOSE then None else Atoi(value)
  }

  function ServerOf(key: string): string
    requires SERVER_PREFIX <= key
  {
    key[|SERVER_PREFIX|..]
  }

  lemma ServerKeyRoundTrip(key: string, name: string)
    ensures SERVER_PREFIX <= ServerKey(name) && ServerOf(ServerKey(name)) == name
    ensures SERVER_PREFIX <= key ==> ServerKey(ServerOf(key)) == key
  {
    assert ServerKey(name)[|SERVER_PREFIX|..] == name;
    if SERVER_PREFIX <= key {
      assert key[..|SERVER_PREFIX|] == SERVER_PREFIX;
    }
  }

  /** The store as it is when the jobs of each server are read; the code makes one read for each. */
  type Reads = string -> Store

  function AllAt(store: Store): Reads {
    (name: string) => store
  }

  /** The first picture: every readable server, with the jobs that are assigned to it when they are read. */
  function Snapshot(store: Store, later: Reads): Servers {
    map name | name in (set k | k in store && SERVER_PREFIX <= k && Ability(store[k]).Some? :: ServerOf(k))
      :: ServerView(name, (match Stored(store, name) case Some(n) => n case None => 0),
                    DirJobs(name, later(name)))
  }

  /** What the store says of a server. */
  function Stored(store: Store, name: string): Option<int> {
    if ServerKey(name) in store then Ability(store[ServerKey(name)]) else None
  }

  /** One event of the server watch.  An unreadable value changes nothing. */
  function HandleServer(servers: Servers, e: Event): Servers {
    if !(SERVER_PREFIX <= e.key) then servers
    else
      var name := ServerOf(e.key);
      if e.Delete? || e.value == CLOSE then servers - {name}
      else
        var ability := Atoi(e.value);
        if ability.None? then servers
        else if name in servers then servers[name := servers[name].(ability := ability.value)]
        else servers[name := ServerView(name, ability.value, {})]
  }

  /** Assign keys have a server and a job segment; the handler would index out of range otherwise. */
  predicate WellFormed(e: Event) {
    ASSIGN_PREFIX <= e.key ==> |Split(e.key, '/')| == 4
  }

  /** One event of the assign watch.  Events of servers that are not in the picture are skipped. */
  function HandleAssign(servers: Servers, e: Event): Servers
    requires WellFormed(e)
  {
    if !(ASSIGN_PREFIX <= e.key) then servers
    else
      var ks := Split(e.key, '/')[2..];
      var name := ks[0];
      if name !in servers then servers
      else
        var jobs := servers[name].jobs;
        servers[name := servers[name].(jobs := if e.Delete? then jobs - {ks[1]} else jobs + {ks[1]})]
  }

  // ---- The two watches over one history

  /** The cache, how far each watch has got, and when each server in it was entered: None for those of the
      first picture, otherwise how far the assign watch was. */
  datatype Cache = Cache(servers: Servers, serversSeen: nat, assignsSeen: nat, entered: map<string, Option<nat>>)

  /** The first picture taken at one moment. */
  function Connect(base: Store): Cache {
    var servers := Snapshot(base, AllAt(base));
    Cache(servers, 0, 0, map name | name in servers :: None)
  }

  function NextServerEvent(log: seq<Event>, c: Cache): Cache
    requires c.serversSeen < |log|
  {
    var servers := HandleServer(c.servers, log[c.serversSeen]);
    var entered := map name | name in servers :: if name in c.servers && name in c.entered then c.entered[name]
                                                else Some(c.assignsSeen);
    Cache(servers, c.serversSeen + 1, c.assignsSeen, entered)
  }

  function NextAssignEvent(log: seq<Event>, c: Cache): Cache
    requires c.assignsSeen < |log| && WellFormed(log[c.assignsSeen])
  {
    c.(servers := HandleAssign(c.servers, log[c.assignsSeen]), assignsSeen := c.assignsSeen + 1)
  }

  /** The cache after its watches have advanced in some order; true stands for the server watch. */
  function Advance(log: seq<Event>, c: Cache, turns: seq<bool>): Option<Cache>
    requires forall e | e in log :: WellFormed(e)
    decreases |turns|
  {
    if turns == [] then Some(c)
    else if turns[0] then
      if c.serversSeen < |log| then Advance(log, NextServerEvent(log, c), turns[1..]) else None
    else
      if c.assignsSeen < |log| then Advance(log, NextAssignEvent(log, c), turns[1..]) else None
  }

  // ---- Which servers are cached

  /** The last readable word on a server. */
  function Belief(base: Store, log: seq<Event>, name: string): Option<int> {
    if log == [] then Stored(base, name)
    else
      var e, before := log[|log| - 1], Belief(base, log[..|log| - 1], name);
      if e.key != ServerKey(name) then before
      else if e.Delete? || e.value == CLOSE then None
      else if Atoi(e.value).None? then before
      else Atoi(e.value)
  }

  /** A value that is neither a number nor a request to close. */
  predicate Unreadable(store: Store, name: string) {
    ServerKey(name) in store && store[ServerKey(name)] != CLOSE && Atoi(store[ServerKey(name)]).None?
  }

  /** The last readable word is what the store says, unless the store says something unreadable of a server that
      was believed to be open: exactly then the two differ. */
  lemma {:induction false} BeliefIsStored(base: Store, log: seq<Event>, name: string)
    ensures Belief(base, log, name) == Stored(Replay(base, log), name) <==>
            !(Unreadable(Replay(base, log), name) && Belief(base, log, name).Some?)
  {
    if log != [] {
      var front, e := log[..|log| - 1], log[|log| - 1];
      BeliefIsStored(base, front, name);
      ReplayAppend(base, front, e);
      assert front + [e] == log;
    }
  }

  lemma SnapshotIsStored(base: Store, later: Reads, name: string)
    ensures name in Snapshot(base, later) <==> Stored(base, name).Some?
    ensures name in Snapshot(base, later) ==>
      Snapshot(base, later)[name] == ServerView(name, Stored(base, name).value, DirJobs(name, later(name)))
  {
    ServerKeyRoundTrip("", name);
    if k :| k in base && SERVER_PREFIX <= k && Ability(base[k]).Some? && ServerOf(k) == name {
      ServerKeyRoundTrip(k, name);
    }
  }

  lemma HandleServerBelief(servers: Servers, e: Event, name: string)
    ensures var after := HandleServer(servers, e);
      if e.key != ServerKey(name) then
        (name in after <==> name in servers) && (name in servers ==> after[name] == servers[name])
      else if e.Delete? || e.value == CLOSE then name !in after
      else if Atoi(e.value).None? then after == servers
      else name in after && after[name].ability == Atoi(e.value).value &&
           after[name].jobs == (if name in servers then servers[name].jobs else {})
  {
    ServerKeyRoundTrip(e.key, name);
  }

  lemma HandleAssignKeepsServers(servers: Servers, e: Event)
    requires WellFormed(e)
    ensures HandleAssign(servers, e).Keys == servers.Keys
    ensures forall name | name in servers :: HandleAssign(servers, e)[name].ability == servers[name].ability
  {
  }

  /** The cached servers are those last known to be open, with their last known ability. */
  ghost predicate Believes(base: Store, log: seq<Event>, c: Cache, name: string) {
    && c.serversSeen <= |log|
    && var belief := Belief(base, log[..c.serversSeen], name);
       (name in c.servers <==> belief.Some?) && (name in c.servers ==> c.servers[name].ability == belief.value)
  }

  lemma {:induction false} AdvanceBelieves(base: Store, log: seq<Event>, c: Cache, turns: seq<bool>, d: Cache,
                                           name: string)
    requires forall e | e in log :: WellFormed(e)
    requires Believes(base, log, c, name) && Advance(log, c, turns) == Some(d)
    ensures Believes(base, log, d, name)
    decreases |turns|
  {
    if turns != [] {
      if turns[0] {
        var e := log[c.serversSeen];
        HandleServerBelief(c.servers, e, name);
        assert log[..c.serversSeen + 1] == log[..c.serversSeen] + [e];
        AdvanceBelieves(base, log, NextServerEvent(log, c), turns[1..], d, name);
      } else {
        HandleAssignKeepsServers(c.servers, log[c.assignsSeen]);
        AdvanceBelieves(base, log, NextAssignEvent(log, c), turns[1..], d, name);
      }
    }
  }

  /** However far the two watches have got: a server is cached exactly when the store, at the point the server
      watch has delivered, holds a number for it, and that number is its ability.  Values that cannot be read
      are the one exception, and only over a server that was open before. */
  lemma CachedServersAreStored(base: Store, log: seq<Event>, turns: seq<bool>, c: Cache, name: string)
    requires forall e | e in log :: WellFormed(e)
    requires Advance(log, Connect(base), turns) == Some(c)
    ensures c.serversSeen <= |log|
    ensures var store := Replay(base, log[..c.serversSeen]);
      && (!Unreadable(store, name) ==>
            (name in c.servers <==> Stored(store, name).Some?) &&
            (name in c.servers ==> c.servers[name].ability == Stored(store, name).value))
      && (Unreadable(store, name) ==> Stored(store, name).None?)
  {
    SnapshotIsStored(base, AllAt(base), name);
    AdvanceBelieves(base, log, Connect(base), turns, c, name);
    BeliefIsStored(base, log[..c.serversSeen], name);
  }

  // ---- Which jobs are cached

  lemma SplitBelowAssign(rest: string)
    ensures Split(ASSIGN_PREFIX + rest, '/') == ["crms", "assign"] + Split(rest, '/')
  {
    SplitTwo("crms", "assign", '/', rest);
    assert ASSIGN_PREFIX + rest == "crms" + ['/'] + ("assign" + ['/'] + rest);
  }

  lemma SplitTwo(a: string, b: string, sep: char, rest: string)
    requires sep !in a && sep !in b
    ensures Split(a + [sep] + (b + [sep] + rest), sep) == [a, b] + Split(rest, sep)
  {
    SplitAtSep(a, sep, b + [sep] + rest);
    SplitAtSep(b, sep, rest);
    SplitPlain(a, sep);
    SplitPlain(b, sep);
  }

  /** A well-formed assign key is made of the two segments the handler reads. */
  lemma SegmentsAreKey(key: string)
    requires ASSIGN_PREFIX <= key && |Split(key, '/')| == 4
    ensures var ks := Split(key, '/')[2..];
            '/' !in ks[0] && '/' !in ks[1] && key == AssignKey(ks[0], ks[1])
  {
    var rest := key[|ASSIGN_PREFIX|..];
    assert key == ASSIGN_PREFIX + rest;
    SplitBelowAssign(rest);
    var ks := Split(rest, '/');
    assert Split(key, '/')[2..] == ks;
    TwoSegments(rest);
    assert AssignKey(ks[0], ks[1]) == ASSIGN_PREFIX + (ks[0] + ['/'] + ks[1]);
  }

  lemma TwoSegments(s: string)
    requires |Split(s, '/')| == 2
    ensures var ks := Split(s, '/'); '/' !in ks[0] && '/' !in ks[1] && s == ks[0] + ['/'] + ks[1]
  {
    var ks := Split(s, '/');
    SplitHasNoSep(s, '/');
    JoinSplit(s, '/');
    assert ks[0] in ks && ks[1] in ks && ks[1..] == [ks[1]];
  }

  /** The handler reads the same job from a key as slicing its server's directory off does. */
  lemma SegmentsAreJob(key: string, name: string)
    requires ASSIGN_PREFIX <= key && |Split(key, '/')| == 4 && '/' !in name
    ensures AssignDir(name) <= key <==> Split(key, '/')[2] == name
    ensures AssignDir(name) <= key ==> JobOf(name, key) == Split(key, '/')[3]
  {
    SegmentsAreKey(key);
    var server, job := Split(key, '/')[2], Split(key, '/')[3];
    DirectoriesAreDisjoint(name, server, job);
    JobOfAssignKey(server, job);
  }

  /** How the assigned jobs of one server change with an event. */
  function Assign(name: string, jobs: set<string>, e: Event): set<string> {
    if !(AssignDir(name) <= e.key) then jobs
    else if e.Delete? then jobs - {JobOf(name, e.key)}
    else jobs + {JobOf(name, e.key)}
  }

  function AssignAll(name: string, jobs: set<string>, events: seq<Event>): set<string> {
    if events == [] then jobs else Assign(name, AssignAll(name, jobs, events[..|events| - 1]), events[|events| - 1])
  }

  lemma HandleAssignJobs(servers: Servers, e: Event, name: string)
    requires WellFormed(e) && '/' !in name && name in servers
    ensures HandleAssign(servers, e)[name].jobs == Assign(name, servers[name].jobs, e)
  {
    if ASSIGN_PREFIX <= e.key {
      SegmentsAreJob(e.key, name);
    } else {
      assert AssignDir(name)[..|ASSIGN_PREFIX|] == ASSIGN_PREFIX;
    }
  }

  lemma {:induction false} AssignAllIsDir(name: string, base: Store, events: seq<Event>)
    ensures AssignAll(name, DirJobs(name, base), events) == DirJobs(name, Replay(base, events))
  {
    if events != [] {
      var front, e := events[..|events| - 1], events[|events| - 1];
      AssignAllIsDir(name, base, front);
      ReplayAppend(base, front, e);
      assert front + [e] == events;
      DirJobsAfter(name, Replay(base, front), e);
    }
  }

  /** The jobs a cached server shows: built up from the first picture, or from nothing since it was entered. */
  ghost predicate ShowsJobs(base: Store, log: seq<Event>, c: Cache, name: string) {
    && c.assignsSeen <= |log| && c.entered.Keys == c.servers.Keys
    && (name in c.servers ==>
          match c.entered[name]
          case None => c.servers[name].jobs == AssignAll(name, DirJobs(name, base), log[..c.assignsSeen])
          case Some(at) => at <= c.assignsSeen && c.servers[name].jobs == AssignAll(name, {}, log[at..c.assignsSeen]))
  }

  lemma {:induction false} AdvanceShowsJobs(base: Store, log: seq<Event>, c: Cache, turns: seq<bool>, d: Cache,
                                            name: string)
    requires (forall e | e in log :: WellFormed(e)) && '/' !in name
    requires ShowsJobs(base, log, c, name) && Advance(log, c, turns) == Some(d)
    ensures ShowsJobs(base, log, d, name)
    decreases |turns|
  {
    if turns != [] {
      if turns[0] {
        HandleServerBelief(c.servers, log[c.serversSeen], name);
        assert log[c.assignsSeen..c.assignsSeen] == [];
        AdvanceShowsJobs(base, log, NextServerEvent(log, c), turns[1..], d, name);
      } else {
        AssignStep(base, log, c, name);
        AdvanceShowsJobs(base, log, NextAssignEvent(log, c), turns[1..], d, name);
      }
    }
  }

  lemma AssignStep(base: Store, log: seq<Event>, c: Cache, name: string)
    requires (forall e | e in log :: WellFormed(e)) && '/' !in name
    requires ShowsJobs(base, log, c, name) && c.assignsSeen < |log|
    ensures ShowsJobs(base, log, NextAssignEvent(log, c), name)
  {
    var e, n := log[c.assignsSeen], c.assignsSeen;
    HandleAssignKeepsServers(c.servers, e);
    if name in c.servers {
      HandleAssignJobs(c.servers, e, name);
      assert log[..n + 1] == log[..n] + [e];
      match c.entered[name] {
        case None => assert log[..n + 1][..n] == log[..n];
        case Some(at) =>
          assert log[at..n + 1] == log[at..n] + [e];
          assert log[at..n + 1][..n - at] == log[at..n];
      }
    }
  }

  /** Some put of the job's key is among the events. */
  ghost predicate PutIn(name: string, job: string, events: seq<Event>) {
    exists i :: 0 <= i < |events| && events[i].Put? && events[i].key == AssignKey(name, job)
  }

  /** Starting from nothing, the events show exactly those assigned jobs whose key they put. */
  lemma {:induction false} FromNothing(name: string, base: Store, events: seq<Event>, job: string)
    ensures job in AssignAll(name, {}, events) <==>
            job in DirJobs(name, Replay(base, events)) && PutIn(name, job, events)
  {
    if events != [] {
      var front, e := events[..|events| - 1], events[|events| - 1];
      FromNothing(name, base, front, job);
      ReplayAppend(base, front, e);
      assert events == front + [e];
      DirJobsAfter(name, Replay(base, front), e);
      JobOfAssignKey(name, job);
      if AssignDir(name) <= e.key {
        AssignKeyRoundTrip(name, e.key);
      }
      PutInAppend(name, job, front, e);
    }
  }

  lemma PutInAppend(name: string, job: string, events: seq<Event>, e: Event)
    ensures PutIn(name, job, events + [e]) <==> PutIn(name, job, events) || (e.Put? && e.key == AssignKey(name, job))
  {
    if i :| 0 <= i < |events| && events[i].Put? && events[i].key == AssignKey(name, job) {
      assert (events + [e])[i] == events[i];
    }
    if e.Put? && e.key == AssignKey(name, job) {
      assert (events + [e])[|events|] == e;
    }
  }

  lemma {:induction false} ReplayConcat(base: Store, a: seq<Event>, b: seq<Event>)
    ensures Replay(base, a + b) == Replay(Replay(base, a), b)
  {
    if b == [] {
      assert a + b == a;
    } else {
      ReplayConcat(base, a, b[..|b| - 1]);
      assert (a + b)[..|a + b| - 1] == a + b[..|b| - 1];
    }
  }

  /** However far the two watches have got: a cached server of the first picture shows exactly the jobs assigned
      to it at the point the assign watch has delivered; one that was entered later shows exactly those of them
      that were assigned, or assigned again, since then. */
  lemma CachedJobsAreAssigned(base: Store, log: seq<Event>, turns: seq<bool>, c: Cache, name: string)
    requires (forall e | e in log :: WellFormed(e)) && '/' !in name
    requires Advance(log, Connect(base), turns) == Some(c) && name in c.servers
    ensures c.assignsSeen <= |log| && name in c.entered
    ensures var dir := DirJobs(name, Replay(base, log[..c.assignsSeen]));
      && c.servers[name].jobs <= dir
      && (c.entered[name].None? ==> c.servers[name].jobs == dir)
      && (c.entered[name].Some? ==>
            && c.entered[name].value <= c.assignsSeen
            && forall job :: job in c.servers[name].jobs <==>
                 job in dir && PutIn(name, job, log[c.entered[name].value..c.assignsSeen]))
  {
    SnapshotIsStored(base, AllAt(base), name);
    assert log[..0] == [];
    AdvanceShowsJobs(base, log, Connect(base), turns, c, name);
    match c.entered[name] {
      case None => AssignAllIsDir(name, base, log[..c.assignsSeen]);
      case Some(at) => LaterJobs(base, log, at, c.assignsSeen, name);
    }
  }

  lemma LaterJobs(base: Store, log: seq<Event>, at: nat, n: nat, name: string)
    requires at <= n <= |log|
    ensures forall job :: job in AssignAll(name, {}, log[at..n]) <==>
              job in DirJobs(name, Replay(base, log[..n])) && PutIn(name, job, log[at..n])
  {
    ReplayConcat(base, log[..at], log[at..n]);
    assert log[..at] + log[at..n] == log[..n];
    forall job
      ensures job in AssignAll(name, {}, log[at..n]) <==>
              job in DirJobs(name, Replay(base, log[..n])) && PutIn(name, job, log[at..n])
    {
      FromNothing(name, Replay(base, log[..at]), log[at..n], job);
    }
  }

  // ---- Names

  /** Every server is cached under its own name. */
  predicate WellNamed(servers: Servers) {
    forall name | name in servers :: servers[name].name == name
  }

  lemma HandleKeepsNames(servers: Servers, e: Event)
    requires WellNamed(servers) && WellFormed(e)
    ensures WellNamed(HandleServer(servers, e)) && WellNamed(HandleAssign(servers, e))
  {
  }

  lemma {:induction false} AdvanceKeepsNames(log: seq<Event>, c: Cache, turns: seq<bool>, d: Cache)
    requires (forall e | e in log :: WellFormed(e)) && WellNamed(c.servers) && Advance(log, c, turns) == Some(d)
    ensures WellNamed(d.servers)
    decreases |turns|
  {
    if turns != [] {
      if turns[0] {
        HandleKeepsNames(c.servers, log[c.serversSeen]);
        AdvanceKeepsNames(log, NextServerEvent(log, c), turns[1..], d);
      } else {
        HandleKeepsNames(c.servers, log[c.assignsSeen]);
        AdvanceKeepsNames(log, NextAssignEvent(log, c), turns[1..], d);
      }
    }
  }

  /** However far the two watches have got: every cached server has the name under which it is stored. */
  lemma CachedServersAreNamed(base: Store, log: seq<Event>, turns: seq<bool>, c: Cache)
    requires (forall e | e in log :: WellFormed(e)) && Advance(log, Connect(base), turns) == Some(c)
    ensures forall name | name in c.servers :: c.servers[name].name == name
  {
    AdvanceKeepsNames(log, Connect(base), turns, c);
  }

  /** What is said of a known server: a number is its ability and leaves its jobs alone; close, or its deletion, takes
      it away; anything else changes nothing. */
  lemma LaterWords(servers: Servers, name: string)
    requires name in servers
    ensures HandleServer(servers, Put("crms/server/" + name, "4")) == servers[name := servers[name].(ability := 4)]
    ensures HandleServer(servers, Put("crms/server/" + name, "close")) == servers - {name}
    ensures HandleServer(servers, Put("crms/server/" + name, "opened")) == servers
    ensures HandleServer(servers, Delete("crms/server/" + name)) == servers - {name}
  {
    var key := "crms/server/" + name;
    assert key == ServerKey(name);
    ServerKeyRoundTrip(key, name);
    Digit();
    assert "opened"[0] == 'o' && !IsDigit('o') && "opened"[0] != CLOSE[0];
  }

  lemma Digit()
    ensures Atoi("4") == Some(4) && "4" != CLOSE
  {
    assert "4"[..0] == "";
    assert DigitsValue("4") == 4;
    assert "4"[0] != CLOSE[0];
  }

  /** A job is put into the set of the server under whose node it is put, if that server is known, and taken out of it
      when it is deleted. */
  lemma AssignedJobs(servers: Servers, name: string, job: string)
    requires '/' !in name && '/' !in job
    ensures var key := "crms/assign/" + name + "/" + job;
      && WellFormed(Put(key, "")) && WellFormed(Delete(key))
      && HandleAssign(servers, Put(key, "")) ==
         (if name in servers then servers[name := servers[name].(jobs := servers[name].jobs + {job})] else servers)
      && HandleAssign(servers, Delete(key)) ==
         (if name in servers then servers[name := servers[name].(jobs := servers[name].jobs - {job})] else servers)
  {
    AssignSegments(name, job);
  }

  lemma AssignSegments(name: string, job: string)
    requires '/' !in name && '/' !in job
    ensures Split("crms/assign/" + name + "/" + job, '/') == ["crms", "assign", name, job]
    ensures ASSIGN_PREFIX <= "crms/assign/" + name + "/" + job
  {
    assert "crms/assign/" + name + "/" + job == "crms" + ['/'] + ("assign" + ['/'] + (name + ['/'] + job));
    JobSegments(name, job);
    OneMoreSegment("assign", name + ['/'] + job);
    OneMoreSegment("crms", "assign" + ['/'] + (name + ['/'] + job));
  }

  lemma OneMoreSegment(first: string, rest: string)
    requires '/' !in first
    ensures Split(first + ['/'] + rest, '/') == [first] + Split(rest, '/')
  {
    SplitAtSep(first, '/', rest);
    SplitPlain(first, '/');
  }

  lemma JobSegments(first: string, second: string)
    requires '/' !in first && '/' !in second
    ensures Split(first + ['/'] + second, '/') == [first, second]
  {
    OneMoreSegment(first, second);
    SplitPlain(second, '/');
  }

  /** A first word on a server, of the kind a server gives when it registers. */
  lemma FirstWord(servers: Servers, name: string)
    requires name !in servers
    ensures HandleServer(servers, Put("crms/server/" + name, "4")) == servers[name := ServerView(name, 4, {})]
    ensures HandleServer(servers, Put("crms/server/" + name, "close")) == servers
  {
    var key := "crms/server/" + name;
    assert key == ServerKey(name);
    ServerKeyRoundTrip(key, name);
    Digit();
    assert servers - {name} == servers;
  }
}
