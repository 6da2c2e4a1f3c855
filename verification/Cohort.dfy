/** Starters of an etcd cluster that find each other through a shared file: each registers, waits until the file
    is full, and derives the cluster from it.  A full file is truncated by the next to register. */
module Cohort {
  import opened Etcd
  import opened Strings

  datatype HostIp = HostIp(host: string, ip: string)

  predicate Clashes(file: seq<HostIp>, me: HostIp) {
    exists e | e in file :: e.host == me.host || e.ip == me.ip
  }

  predicate Distinct(file: seq<HostIp>) {
    forall i, j | 0 <= i < j < |file| :: file[i].host != file[j].host && file[i].ip != file[j].ip
  }

  /** The file after a registration; nothing if it is refused. */
  function Register(size: nat, file: seq<HostIp>, me: HostIp): Option<seq<HostIp>> {
    if 0 < |file| < size && Clashes(file, me) then None
    else if |file| < size then Some(file + [me])
    else Some([me])
  }

  function Site(e: HostIp, port: string): string {
    e.host + "=http://" + e.ip + ":" + port
  }

  /** The argument every member of a cluster must be given alike. */
  function ClusterString(file: seq<HostIp>, port: string): string {
    if file == [] then ""
    else if |file| == 1 then Site(file[0], port)
    else ClusterString(file[..|file| - 1], port) + "," + Site(file[|file| - 1], port)
  }

  function Take(file: seq<HostIp>, size: nat): seq<HostIp> {
    if size <= |file| then file[..size] else file
  }

  // ---- The protocol

  /** A starter remembers in which cohort it registered; one that has started, in which it read the file, and what it
      read. */
  datatype Starter =
    | Waiting(me: HostIp, cohort: nat)
    | Ready(me: HostIp, cohort: nat)
    | Started(me: HostIp, cohort: nat, readIn: nat, file: seq<HostIp>, cluster: string)

  datatype Config = Config(size: nat, port: string)

  /** The members of every cohort there has been; the file holds those of the last. */
  datatype State = State(cohorts: seq<seq<HostIp>>, starters: seq<Starter>)

  predicate HasFile(s: State) { s.cohorts != [] }

  function Last(s: State): nat
    requires HasFile(s)
  {
    |s.cohorts| - 1
  }

  function File(s: State): seq<HostIp>
    requires HasFile(s)
  {
    s.cohorts[Last(s)]
  }

  datatype Step = Join(me: HostIp) | Poll(k: nat) | Read(k: nat)

  predicate Enabled(cfg: Config, s: State, step: Step) {
    HasFile(s) &&
    match step
    case Join(me) => Register(cfg.size, File(s), me).Some?
    case Poll(k) => k < |s.starters| && s.starters[k].Waiting? && |File(s)| >= cfg.size
    case Read(k) => k < |s.starters| && s.starters[k].Ready?
  }

  function Do(cfg: Config, s: State, step: Step): (t: State)
    requires Enabled(cfg, s, step)
    ensures HasFile(t)
  {
    match step
    case Join(me) =>
      var file := Register(cfg.size, File(s), me).value;
      var cohorts := if |File(s)| < cfg.size then s.cohorts[Last(s) := file] else s.cohorts + [file];
      var cohort := |cohorts| - 1;
      State(cohorts, s.starters + [if |file| >= cfg.size then Ready(me, cohort) else Waiting(me, cohort)])
    case Poll(k) =>
      var st := s.starters[k];
      s.(starters := s.starters[k := Ready(st.me, st.cohort)])
    case Read(k) =>
      var st, file := s.starters[k], Take(File(s), cfg.size);
      s.(starters := s.starters[k := Started(st.me, st.cohort, Last(s), file, ClusterString(file, cfg.port))])
  }

  function After(cfg: Config, s: State, steps: seq<Step>): Option<State>
    decreases |steps|
  {
    if steps == [] then Some(s)
    else if Enabled(cfg, s, steps[0]) then After(cfg, Do(cfg, s, steps[0]), steps[1..])
    else None
  }

  /** Where one starter stands.  It is a member of its cohort and goes on only when that is complete; what it reads is
      its own cohort, or the first members of a later one. */
  ghost predicate StarterInv(cfg: Config, cohorts: seq<seq<HostIp>>, st: Starter) {
    && st.cohort < |cohorts| && st.me in cohorts[st.cohort]
    && (!st.Waiting? ==> |cohorts[st.cohort]| == cfg.size)
    && (st.Started? ==>
          && st.cohort <= st.readIn < |cohorts|
          && st.cluster == ClusterString(st.file, cfg.port)
          && (st.readIn == st.cohort ==> st.file == cohorts[st.cohort])
          && st.file != [] && st.file <= cohorts[st.readIn])
  }

  ghost predicate Inv(cfg: Config, s: State) {
    && HasFile(s)
    && (forall c | 0 <= c < |s.cohorts| :: Distinct(s.cohorts[c]) && |s.cohorts[c]| <= cfg.size)
    && (forall c | 0 <= c < |s.cohorts| - 1 :: |s.cohorts[c]| == cfg.size)
    && (forall c | 0 < c < |s.cohorts| :: s.cohorts[c] != [])
    && (forall k | 0 <= k < |s.starters| :: StarterInv(cfg, s.cohorts, s.starters[k]))
  }

  lemma RegisterKeepsDistinct(size: nat, file: seq<HostIp>, me: HostIp)
    requires Distinct(file) && size >= 1 && |file| <= size && Register(size, file, me).Some?
    ensures var after := Register(size, file, me).value;
            Distinct(after) && 1 <= |after| <= size && me in after && (|file| < size ==> after == file + [me])
  {
  }

  /** Who is refused, and what becomes of the file otherwise: while it is being filled, one who shares its host or its
      address with one in it; the first one after it was full starts it anew. */
  lemma RegistersIff(size: nat, file: seq<HostIp>, me: HostIp)
    ensures Register(size, file, me).None? <==>
            0 < |file| < size && exists k :: 0 <= k < |file| && (file[k].host == me.host || file[k].ip == me.ip)
    ensures Register(size, file, me).Some? ==>
            Register(size, file, me).value == (if |file| < size then file else []) + [me]
  {
    if Clashes(file, me) {
      var e :| e in file && (e.host == me.host || e.ip == me.ip);
      var k :| 0 <= k < |file| && file[k] == e;
    }
    assert [] + [me] == [me];
  }

  /** A registration changes nothing for those registered before. */
  lemma StarterStays(cfg: Config, cohorts: seq<seq<HostIp>>, st: Starter, file: seq<HostIp>)
    requires cohorts != [] && StarterInv(cfg, cohorts, st)
    requires var last := cohorts[|cohorts| - 1]; |last| < cfg.size ==> |file| == |last| + 1 && last <= file
    ensures var last := cohorts[|cohorts| - 1];
            StarterInv(cfg, if |last| < cfg.size then cohorts[|cohorts| - 1 := file] else cohorts + [file], st)
  {
  }

  lemma JoinKeeps(cfg: Config, s: State, me: HostIp)
    requires Inv(cfg, s) && cfg.size >= 1 && Enabled(cfg, s, Join(me))
    ensures Inv(cfg, Do(cfg, s, Join(me)))
  {
    var t, file := Do(cfg, s, Join(me)), Register(cfg.size, File(s), me).value;
    RegisterKeepsDistinct(cfg.size, File(s), me);
    forall k | 0 <= k < |t.starters|
      ensures StarterInv(cfg, t.cohorts, t.starters[k])
    {
      if k < |s.starters| {
        StarterStays(cfg, s.cohorts, s.starters[k], file);
      }
    }
  }

  lemma StepKeeps(cfg: Config, s: State, step: Step)
    requires Inv(cfg, s) && cfg.size >= 1 && Enabled(cfg, s, step)
    ensures Inv(cfg, Do(cfg, s, step))
  {
    match step {
      case Join(me) => JoinKeeps(cfg, s, me);
      case Poll(k) => assert StarterInv(cfg, s.cohorts, s.starters[k]);
      case Read(k) =>
        assert StarterInv(cfg, s.cohorts, s.starters[k]);
        assert Take(File(s), cfg.size) == File(s);
    }
  }

  lemma {:induction false} RunsKeep(cfg: Config, s: State, steps: seq<Step>, t: State)
    requires Inv(cfg, s) && cfg.size >= 1 && After(cfg, s, steps) == Some(t)
    ensures Inv(cfg, t)
    decreases |steps|
  {
    if steps != [] {
      StepKeeps(cfg, s, steps[0]);
      RunsKeep(cfg, Do(cfg, s, steps[0]), steps[1..], t);
    }
  }

  /** Agreement over every run: no cohort has more members than the cluster, or two with the same host or address;
      and starters of one cohort that read the file before it is truncated all derive the same string, which
      lists the whole cohort, themselves included, in the order of registration. */
  lemma CohortsAgree(cfg: Config, file: seq<HostIp>, steps: seq<Step>, t: State, k: nat, other: nat)
    requires cfg.size >= 1 && Distinct(file) && |file| <= cfg.size
    requires After(cfg, State([file], []), steps) == Some(t)
    requires k < |t.starters| && other < |t.starters|
    requires t.starters[k].Started? && t.starters[k].readIn == t.starters[k].cohort
    requires t.starters[other].Started? && t.starters[other].readIn == t.starters[other].cohort
    ensures var st := t.starters[k];
      && st.cohort < |t.cohorts| && st.me in t.cohorts[st.cohort]
      && |t.cohorts[st.cohort]| == cfg.size && Distinct(t.cohorts[st.cohort])
      && st.cluster == ClusterString(t.cohorts[st.cohort], cfg.port)
      && (t.starters[other].cohort == st.cohort ==> t.starters[other].cluster == st.cluster)
  {
    RunsKeep(cfg, State([file], []), steps, t);
    assert StarterInv(cfg, t.cohorts, t.starters[k]) && StarterInv(cfg, t.cohorts, t.starters[other]);
  }

  /** A starter reads the whole file as it is at that moment, and derives the cluster from it; nothing else changes. */
  lemma ReadsTheFile(cfg: Config, s: State, k: nat)
    requires Inv(cfg, s) && Enabled(cfg, s, Read(k))
    ensures var t, st, last := Do(cfg, s, Read(k)), s.starters[k], |s.cohorts| - 1;
      && t.cohorts == s.cohorts
      && t.starters == s.starters[k := Started(st.me, st.cohort, last, s.cohorts[last],
                                               ClusterString(s.cohorts[last], cfg.port))]
  {
    assert s.cohorts[Last(s)][..|File(s)|] == File(s);
  }

  // ---- What a derived string says

  /** Neither separator of the string occurs where it would be misread. */
  predicate IsPlain(e: HostIp) {
    ',' !in e.host && '=' !in e.host && ',' !in e.ip
  }

  predicate ArePlain(file: seq<HostIp>) {
    forall i | 0 <= i < |file| :: IsPlain(file[i])
  }

  predicate Lists(cluster: string, e: HostIp, port: string) {
    Site(e, port) in Split(cluster, ',')
  }

  function Sites(file: seq<HostIp>, port: string): seq<string> {
    seq(|file|, i requires 0 <= i < |file| => Site(file[i], port))
  }

  lemma SiteInjective(a: HostIp, b: HostIp, port: string)
    requires '=' !in a.host && '=' !in b.host && Site(a, port) == Site(b, port)
    ensures a == b
  {
    var s, t := Site(a, port), Site(b, port);
    assert s[|a.host|] == '=' && t[|b.host|] == '=';
    assert s[..|a.host|] == a.host && t[..|b.host|] == b.host;
    assert forall i | 0 <= i < |a.host| :: s[i] == a.host[i];
    assert forall i | 0 <= i < |b.host| :: t[i] == b.host[i];
    assert |a.host| == |b.host|;
    var n := |a.host| + |"=http://"|;
    assert s[n..n + |a.ip|] == a.ip && t[n..n + |b.ip|] == b.ip;
  }

  lemma {:induction false} ClusterSplits(file: seq<HostIp>, port: string)
    requires file != [] && ArePlain(file) && ',' !in port
    ensures Split(ClusterString(file, port), ',') == Sites(file, port)
  {
    var front, site := file[..|file| - 1], Site(file[|file| - 1], port);
    SplitPlain(site, ',');
    if |file| > 1 {
      ClusterSplits(front, port);
      assert ClusterString(file, port) == ClusterString(front, port) + [','] + site;
      SplitAtSep(ClusterString(front, port), ',', site);
      assert Sites(file, port) == Sites(front, port) + [site];
    } else {
      assert Sites(file, port) == [site];
    }
  }

  /** The string tells its members apart, in their order. */
  lemma ClusterInjective(a: seq<HostIp>, b: seq<HostIp>, port: string)
    requires a != [] && b != [] && ArePlain(a) && ArePlain(b) && ',' !in port
    ensures ClusterString(a, port) == ClusterString(b, port) <==> a == b
  {
    if ClusterString(a, port) == ClusterString(b, port) {
      ClusterSplits(a, port);
      ClusterSplits(b, port);
      assert |Sites(a, port)| == |Sites(b, port)|;
      forall i | 0 <= i < |a|
        ensures a[i] == b[i]
      {
        assert Sites(a, port)[i] == Sites(b, port)[i];
        SiteInjective(a[i], b[i], port);
      }
    }
  }

  lemma ListsItsMembers(file: seq<HostIp>, e: HostIp, port: string)
    requires file != [] && ArePlain(file) && IsPlain(e) && ',' !in port
    ensures Lists(ClusterString(file, port), e, port) <==> e in file
  {
    ClusterSplits(file, port);
    if e in file {
      var i :| 0 <= i < |file| && file[i] == e;
      assert Sites(file, port)[i] == Site(e, port);
    }
    if Lists(ClusterString(file, port), e, port) {
      var i :| 0 <= i < |file| && Sites(file, port)[i] == Site(e, port);
      SiteInjective(file[i], e, port);
    }
  }

  /** Exactly when a starter derives its own cohort, over every run and however late it reads: if and only if the file
      holds that cohort at the moment it reads.  Until the file is truncated it does; afterwards what the starter reads
      are the first members of a later cohort, and it is listed if and only if it has registered again among them. */
  lemma DerivesItsCohortIff(cfg: Config, file: seq<HostIp>, steps: seq<Step>, t: State, k: nat)
    requires cfg.size >= 1 && Distinct(file) && |file| <= cfg.size
    requires After(cfg, State([file], []), steps) == Some(t) && k < |t.starters| && t.starters[k].Started?
    requires ',' !in cfg.port && forall c | 0 <= c < |t.cohorts| :: ArePlain(t.cohorts[c])
    ensures var st := t.starters[k];
      && st.cohort <= st.readIn < |t.cohorts| && |t.cohorts[st.cohort]| == cfg.size
      && st.file != [] && st.file <= t.cohorts[st.readIn]
      && (st.readIn == st.cohort ==> st.file == t.cohorts[st.cohort])
      && (st.cluster == ClusterString(t.cohorts[st.cohort], cfg.port) <==> st.file == t.cohorts[st.cohort])
      && (Lists(st.cluster, st.me, cfg.port) <==> st.me in st.file)
  {
    RunsKeep(cfg, State([file], []), steps, t);
    var st := t.starters[k];
    assert StarterInv(cfg, t.cohorts, st);
    assert forall i | 0 <= i < |st.file| :: st.file[i] == t.cohorts[st.readIn][i];
    ClusterInjective(st.file, t.cohorts[st.cohort], cfg.port);
    var i :| 0 <= i < |t.cohorts[st.cohort]| && t.cohorts[st.cohort][i] == st.me;
    ListsItsMembers(st.file, st.me, cfg.port);
  }

  /** Late readers exist, without any crash: after four registrations for clusters of two, the first starter finds out
      that its cohort was complete, and reads the next one.  It derives its own cohort only if the same two have
      registered again in the same order, and is listed only if it is one of the two. */
  lemma LateReadersExist(a: HostIp, b: HostIp, c: HostIp, d: HostIp, port: string)
    requires a.host != b.host && a.ip != b.ip && c.host != d.host && c.ip != d.ip
    requires ArePlain([a, b]) && ArePlain([c, d]) && ',' !in port
    ensures var steps := [Join(a), Join(b), Join(c), Join(d), Poll(0), Read(0)];
            var end, late := After(Config(2, port), State([[]], []), steps), ClusterString([c, d], port);
      && end.Some? && |end.value.starters| == 4 && end.value.starters[0] == Started(a, 0, 1, [c, d], late)
      && (late == ClusterString([a, b], port) <==> c == a && d == b)
      && (Lists(late, a, port) <==> a == c || a == d)
  {
    LateRun(a, b, c, d, port);
    LateString(a, b, c, d, port);
  }

  lemma LateRun(a: HostIp, b: HostIp, c: HostIp, d: HostIp, port: string)
    requires a.host != b.host && a.ip != b.ip && c.host != d.host && c.ip != d.ip
    ensures var steps := [Join(a), Join(b), Join(c), Join(d), Poll(0), Read(0)];
            var end, late := After(Config(2, port), State([[]], []), steps), ClusterString([c, d], port);
            end.Some? && |end.value.starters| == 4 && end.value.starters[0] == Started(a, 0, 1, [c, d], late)
  {
    var cfg := Config(2, port);
    var late := ClusterString([c, d], port);
    var s2 := State([[a, b]], Pair(a, b, 0));
    var s4 := State([[a, b], [c, d]], Pair(a, b, 0) + Pair(c, d, 1));
    var s5 := s4.(starters := s4.starters[0 := Ready(a, 0)]);
    var s6 := s5.(starters := s5.starters[0 := Started(a, 0, 1, [c, d], late)]);
    assert After(cfg, s6, []) == Some(s6);
    assert [c, d][..2] == [c, d];
    OneStep(cfg, s5, Read(0), [], s6, s6);
    OneStep(cfg, s4, Poll(0), [Read(0)], s5, s6);
    TwoJoin(cfg, s2, c, d, [Poll(0), Read(0)], s4, s6);
    FirstTwoJoin(cfg, a, b, [Join(c), Join(d), Poll(0), Read(0)], s2, s6);
  }

  lemma LateString(a: HostIp, b: HostIp, c: HostIp, d: HostIp, port: string)
    requires ArePlain([a, b]) && ArePlain([c, d]) && ',' !in port
    ensures ClusterString([c, d], port) == ClusterString([a, b], port) <==> c == a && d == b
    ensures Lists(ClusterString([c, d], port), a, port) <==> a == c || a == d
  {
    assert [a, b][0] == a && [a, b][1] == b && [c, d][0] == c && [c, d][1] == d;
    ClusterInjective([c, d], [a, b], port);
    ListsItsMembers([c, d], a, port);
  }

  /** What two registrations that make a cohort leave behind. */
  function Pair(x: HostIp, y: HostIp, c: nat): seq<Starter> {
    [Waiting(x, c), Ready(y, c)]
  }

  lemma FirstTwoJoin(cfg: Config, x: HostIp, y: HostIp, rest: seq<Step>, mid: State, end: State)
    requires cfg.size == 2 && x.host != y.host && x.ip != y.ip
    requires mid == State([[x, y]], Pair(x, y, 0)) && After(cfg, mid, rest) == Some(end)
    ensures After(cfg, State([[]], []), [Join(x), Join(y)] + rest) == Some(end)
  {
    var s0, s1 := State([[]], []), State([[x]], [Waiting(x, 0)]);
    FirstJoins(cfg, x, y);
    OneStep(cfg, s1, Join(y), rest, mid, end);
    OneStep(cfg, s0, Join(x), [Join(y)] + rest, s1, end);
    assert [Join(x)] + ([Join(y)] + rest) == [Join(x), Join(y)] + rest;
  }

  lemma FirstJoins(cfg: Config, x: HostIp, y: HostIp)
    requires cfg.size == 2 && x.host != y.host && x.ip != y.ip
    ensures var s0, s1 := State([[]], []), State([[x]], [Waiting(x, 0)]);
      && Enabled(cfg, s0, Join(x)) && Do(cfg, s0, Join(x)) == s1
      && Enabled(cfg, s1, Join(y)) && Do(cfg, s1, Join(y)) == State([[x, y]], Pair(x, y, 0))
  {
    assert [] + [x] == [x] && [[]][0 := [x]] == [[x]];
    assert [x] + [y] == [x, y] && [[x]][0 := [x, y]] == [[x, y]];
  }

  lemma TwoJoin(cfg: Config, s: State, x: HostIp, y: HostIp, rest: seq<Step>, mid: State, end: State)
    requires cfg.size == 2 && x.host != y.host && x.ip != y.ip
    requires |s.cohorts| == 1 && |s.cohorts[0]| == 2
    requires mid == State(s.cohorts + [[x, y]], s.starters + Pair(x, y, 1)) && After(cfg, mid, rest) == Some(end)
    ensures After(cfg, s, [Join(x), Join(y)] + rest) == Some(end)
  {
    var s1 := State(s.cohorts + [[x]], s.starters + [Waiting(x, 1)]);
    assert Do(cfg, s, Join(x)) == s1;
    assert [x] + [y] == [x, y] && s1.cohorts[1 := [x, y]] == s.cohorts + [[x, y]];
    assert s1.starters + [Ready(y, 1)] == mid.starters;
    OneStep(cfg, s1, Join(y), rest, mid, end);
    OneStep(cfg, s, Join(x), [Join(y)] + rest, s1, end);
    assert [Join(x)] + ([Join(y)] + rest) == [Join(x), Join(y)] + rest;
  }

  lemma OneStep(cfg: Config, s: State, step: Step, rest: seq<Step>, mid: State, end: State)
    requires Enabled(cfg, s, step) && Do(cfg, s, step) == mid && After(cfg, mid, rest) == Some(end)
    ensures After(cfg, s, [step] + rest) == Some(end)
  {
    assert ([step] + rest)[1..] == rest;
  }

  // ---- Reading a derived string

  /** What one member of the list says, read back: the host before the equals sign, then the scheme, the address, and
      behind the last colon the port. */
  function ReadSite(s: string): Option<(string, string, string)> {
    var sides := Split(s, '=');
    if |sides| != 2 || !("http://" <= sides[1]) then None
    else
      var parts := Split(sides[1][7..], ':');
      if |parts| < 2 then None
      else Some((sides[0], Strings.Join(parts[..|parts| - 1], ':'), parts[|parts| - 1]))
  }

  lemma SiteReads(e: HostIp, port: string)
    requires '=' !in e.host && '=' !in e.ip && '=' !in port && ':' !in port
    ensures ReadSite(Site(e, port)) == Some((e.host, e.ip, port))
  {
    var right := "http://" + (e.ip + [':'] + port);
    SiteSides(e, port);
    AddressReads(e.ip, port);
    assert right[7..] == e.ip + [':'] + port && right[..7] == "http://";
  }

  lemma SiteSides(e: HostIp, port: string)
    requires '=' !in e.host && '=' !in e.ip && '=' !in port
    ensures Split(Site(e, port), '=') == [e.host, "http://" + (e.ip + [':'] + port)]
  {
    var right := "http://" + (e.ip + [':'] + port);
    assert Site(e, port) == e.host + ['='] + right;
    SplitAtSep(e.host, '=', right);
    SplitPlain(e.host, '=');
    SplitPlain(right, '=');
  }

  lemma AddressReads(ip: string, port: string)
    requires ':' !in port
    ensures var parts := Split(ip + [':'] + port, ':');
      |parts| >= 2 && Strings.Join(parts[..|parts| - 1], ':') == ip && parts[|parts| - 1] == port
  {
    var front := Split(ip, ':');
    SplitAtSep(ip, ':', port);
    SplitPlain(port, ':');
    JoinSplit(ip, ':');
    assert (front + [port])[..|front|] == front;
  }

  /** Every member of the list reads back as the host, the address and the port of the registration at its place. */
  lemma ClusterReads(file: seq<HostIp>, port: string)
    requires file != [] && ArePlain(file) && forall i | 0 <= i < |file| :: '=' !in file[i].ip
    requires ',' !in port && '=' !in port && ':' !in port
    ensures var members := Split(ClusterString(file, port), ',');
      |members| == |file| &&
      forall i | 0 <= i < |file| :: ReadSite(members[i]) == Some((file[i].host, file[i].ip, port))
  {
    ClusterSplits(file, port);
    forall i | 0 <= i < |file|
      ensures ReadSite(Sites(file, port)[i]) == Some((file[i].host, file[i].ip, port))
    {
      SiteReads(file[i], port);
    }
  }

  /** So the string tells the port as well as the members. */
  lemma ClusterTellsPort(a: seq<HostIp>, port: string, b: seq<HostIp>, other: string)
    requires a != [] && ArePlain(a) && forall i | 0 <= i < |a| :: '=' !in a[i].ip
    requires b != [] && ArePlain(b) && forall i | 0 <= i < |b| :: '=' !in b[i].ip
    requires ',' !in port && '=' !in port && ':' !in port && ',' !in other && '=' !in other && ':' !in other
    ensures ClusterString(a, port) == ClusterString(b, other) <==> a == b && port == other
  {
    ClusterReads(a, port);
    ClusterReads(b, other);
    if ClusterString(a, port) == ClusterString(b, other) {
      var members := Split(ClusterString(a, port), ',');
      assert ReadSite(members[0]) == Some((a[0].host, a[0].ip, port));
      forall i | 0 <= i < |a|
        ensures a[i] == b[i]
      {
        assert ReadSite(members[i]) == Some((a[i].host, a[i].ip, port));
      }
    }
  }
}
