/** The key-value store the servers and clients share: keys, writes and the ordered events they emit. */
module Etcd {

  datatype Option<+T> = None | Some(value: T)

  const SERVER_PREFIX: string := "crms/server/"
  const JOB_PREFIX: string := "crms/job/"
  const ASSIGN_PREFIX: string := "crms/assign/"

  function ServerKey(name: string): string { SERVER_PREFIX + name }

  function JobKey(job: string): string { JOB_PREFIX + job }

  function StateKey(job: string): string { JobKey(job) + "/state" }

  function OutputKey(job: string): string { StateKey(job) + "/stdouterr" }

  function AssignNode(server: string): string { ASSIGN_PREFIX + server }

  function AssignDir(server: string): string { AssignNode(server) + "/" }

  function AssignKey(server: string, job: string): string { AssignDir(server) + job }

  /** What a watch handler keeps of a key it is called with: everything behind the directory. */
  function JobOf(server: string, key: string): string
    requires AssignDir(server) <= key
  {
    key[|AssignNode(server)| + 1..]
  }

  /** Slicing off the directory gives back the job, and the directory holds no other keys. */
  lemma AssignKeyRoundTrip(server: string, key: string)
    requires AssignDir(server) <= key
    ensures AssignKey(server, JobOf(server, key)) == key
    ensures forall job :: AssignKey(server, job) == key ==> job == JobOf(server, key)
  {
    assert key[..|AssignDir(server)|] == AssignDir(server);
    assert AssignKey(server, JobOf(server, key)) == key;
    forall job | AssignKey(server, job) == key
      ensures job == JobOf(server, key)
    {
      assert AssignKey(server, job)[|AssignDir(server)|..] == job;
    }
  }

  lemma JobOfAssignKey(server: string, job: string)
    ensures AssignDir(server) <= AssignKey(server, job)
    ensures JobOf(server, AssignKey(server, job)) == job
  {
    assert AssignKey(server, job)[|AssignDir(server)|..] == job;
  }

  /** Names without a slash keep the directories of different servers apart, whatever the job IDs are. */
  lemma DirectoriesAreDisjoint(server: string, other: string, job: string)
    requires '/' !in server && '/' !in other
    ensures AssignDir(server) <= AssignKey(other, job) <==> server == other
  {
    var d, k, n := AssignDir(server), AssignKey(other, job), |ASSIGN_PREFIX|;
    assert forall i | 0 <= i < |server| :: d[n + i] == server[i];
    assert forall i | 0 <= i < |other| :: k[n + i] == other[i];
    assert d[n + |server|] == '/' && k[n + |other|] == '/';
    assert server == other ==> k == d + job;
    if d <= k {
      assert k[..|d|] == d;
      assert forall i | 0 <= i < |d| :: d[i] == k[i];
      assert |server| >= |other|;
      assert |server| == |other|;
      assert forall i | 0 <= i < |server| :: server[i] == d[n + i] == k[n + i] == other[i];
    }
  }

  /** No job node lies in a server's assign directory. */
  lemma JobKeysAreNotAssigned(server: string, job: string, suffix: string)
    ensures !(AssignDir(server) <= JobKey(job) + suffix)
  {
    assert AssignDir(server)[5] == 'a' && (JobKey(job) + suffix)[5] == 'j';
  }

  type Store = map<string, string>

  datatype Event = Put(key: string, value: string) | Delete(key: string)

  function Apply(store: Store, e: Event): Store {
    match e
    case Put(k, v) => store[k := v]
    case Delete(k) => store - {k}
  }

  /** A write emits an event unless it deletes a key that is not there. */
  predicate Emits(store: Store, e: Event) {
    e.Put? || e.key in store
  }

  function Replay(store: Store, log: seq<Event>): Store {
    if log == [] then store else Apply(Replay(store, log[..|log| - 1]), log[|log| - 1])
  }

  lemma ReplayAppend(store: Store, log: seq<Event>, e: Event)
    ensures Replay(store, log + [e]) == Apply(Replay(store, log), e)
  {
    assert (log + [e])[..|log|] == log;
  }

  /** The jobs assigned to a server: what a listing of its directory returns. */
  function DirJobs(server: string, store: Store): set<string> {
    set k | k in store && AssignDir(server) <= k :: JobOf(server, k)
  }

  lemma DirJobsAreKeys(server: string, store: Store, job: string)
    ensures job in DirJobs(server, store) <==> AssignKey(server, job) in store
  {
    JobOfAssignKey(server, job);
    if job in DirJobs(server, store) {
      var k :| k in store && AssignDir(server) <= k && JobOf(server, k) == job;
      AssignKeyRoundTrip(server, k);
    }
  }

  /** How one write changes the assigned jobs. */
  lemma DirJobsAfter(server: string, store: Store, e: Event)
    ensures !(AssignDir(server) <= e.key) ==> DirJobs(server, Apply(store, e)) == DirJobs(server, store)
    ensures AssignDir(server) <= e.key && e.Put? ==>
      DirJobs(server, Apply(store, e)) == DirJobs(server, store) + {JobOf(server, e.key)}
    ensures AssignDir(server) <= e.key && e.Delete? ==>
      DirJobs(server, Apply(store, e)) == DirJobs(server, store) - {JobOf(server, e.key)}
  {
    var after := Apply(store, e);
    forall job
      ensures job in DirJobs(server, after) <==> AssignKey(server, job) in after
      ensures job in DirJobs(server, store) <==> AssignKey(server, job) in store
      ensures AssignDir(server) <= AssignKey(server, job)
      ensures AssignKey(server, job) == e.key ==> JobOf(server, e.key) == job
    {
      DirJobsAreKeys(server, after, job);
      DirJobsAreKeys(server, store, job);
      JobOfAssignKey(server, job);
    }
    if AssignDir(server) <= e.key {
      AssignKeyRoundTrip(server, e.key);
    }
  }
}
