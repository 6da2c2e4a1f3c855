/** The tolerant log comparison on values: each actual item is compared with the expected item at its place,
    and when the messages differ the expected message is fetched from a later place inside a time window. */
module LogMatching {
  import opened Etcd

  datatype Entry = Entry(time: int, msg: string, relative: int)

  function Abs(x: int): nat { if x < 0 then -x else x }

  predicate Same(a: Entry, e: Entry, threshold: int) {
    a.msg == e.msg && Abs(a.relative - e.relative) <= threshold
  }

  // ---- Moving messages

  ghost predicate IsPermutation(p: seq<nat>) {
    && InRange(p)
    && (forall i, j | 0 <= i < j < |p| :: p[i] != p[j])
  }

  predicate InRange(p: seq<nat>) {
    forall i | 0 <= i < |p| :: p[i] < |p|
  }

  function Swapped(p: seq<nat>, i: nat, j: nat): (r: seq<nat>)
    requires i < |p| && j < |p|
    ensures |r| == |p| && (InRange(p) ==> InRange(r))
  {
    p[i := p[j]][j := p[i]]
  }

  lemma SwapPermutes(p: seq<nat>, i: nat, j: nat)
    requires i < |p| && j < |p| && IsPermutation(p)
    ensures IsPermutation(Swapped(p, i, j))
  {
    var r := Swapped(p, i, j);
    forall x, y | 0 <= x < y < |r|
      ensures r[x] != r[y]
    {
      var u, v := if x == i then j else if x == j then i else x, if y == i then j else if y == j then i else y;
      assert r[x] == p[u] && r[y] == p[v] && u != v;
    }
  }

  /** The log once its messages have moved: each place has the message that stood at its origin, and keeps its
      times. */
  function Moved(e: seq<Entry>, origin: seq<nat>): (r: seq<Entry>)
    requires |origin| == |e| && InRange(origin)
    ensures |r| == |e|
  {
    seq(|e|, q requires 0 <= q < |e| => e[q].(msg := e[origin[q]].msg))
  }

  function SwapMsg(e: seq<Entry>, i: nat, j: nat): seq<Entry>
    requires i < |e| && j < |e|
  {
    e[i := e[i].(msg := e[j].msg)][j := e[j].(msg := e[i].msg)]
  }

  lemma SwapMoves(e: seq<Entry>, origin: seq<nat>, i: nat, j: nat)
    requires |origin| == |e| && InRange(origin) && i < |e| && j < |e|
    ensures SwapMsg(Moved(e, origin), i, j) == Moved(e, Swapped(origin, i, j))
  {
  }

  lemma NothingMoved(e: seq<Entry>)
    ensures Moved(e, seq(|e|, i => i)) == e
  {
  }

  // ---- The comparison

  /** The first acceptable place from j on, as long as the places stay inside the window that starts at i. */
  function FindNear(a: Entry, e: seq<Entry>, i: nat, j: nat, threshold: int): Option<nat>
    requires i < |e|
    decreases |e| - j
  {
    if j < |e| && e[j].time - e[i].time < threshold then
      if Same(a, e[j], threshold) then Some(j) else FindNear(a, e, i, j + 1, threshold)
    else None
  }

  function Partner(a: Entry, e: seq<Entry>, i: nat, threshold: int): Option<nat>
    requires i < |e|
  {
    if Same(a, e[i], threshold) then Some(i)
    else if a.msg != e[i].msg then FindNear(a, e, i, i + 1, threshold)
    else None
  }

  /** How far a comparison has come.  The origin of a place is where its message stood at first; the partner of
      a place is the place its actual item was compared with. */
  datatype Progress = Progress(origin: seq<nat>, partner: seq<nat>, errors: seq<nat>)

  predicate Fits(p: Progress, n: nat) {
    |p.origin| == n && InRange(p.origin)
  }

  function Step(a: seq<Entry>, e: seq<Entry>, p: Progress, i: nat, threshold: int): (r: Progress)
    requires |a| == |e| && Fits(p, |e|) && i < |e|
    ensures Fits(r, |e|)
  {
    match Partner(a[i], Moved(e, p.origin), i, threshold)
    case Some(j) =>
      PartnerIsNear(a[i], Moved(e, p.origin), i, threshold);
      Progress(Swapped(p.origin, i, j), p.partner + [j], p.errors)
    case None =>
      p.(partner := p.partner + [i], errors := p.errors + [i])
  }

  function Loop(a: seq<Entry>, e: seq<Entry>, p: Progress, i: nat, threshold: int): (r: Progress)
    requires |a| == |e| && Fits(p, |e|) && i <= |e|
    ensures Fits(r, |e|)
    decreases |a| - i
  {
    if i == |a| then p else Loop(a, e, Step(a, e, p, i, threshold), i + 1, threshold)
  }

  function Initial(n: nat): (r: Progress)
    ensures Fits(r, n)
  {
    Progress(seq(n, i => i), [], [])
  }

  function Compare(a: seq<Entry>, e: seq<Entry>, threshold: int): (r: Progress)
    requires |a| == |e|
    ensures Fits(r, |e|)
  {
    Loop(a, e, Initial(|e|), 0, threshold)
  }

  predicate Accepted(a: seq<Entry>, e: seq<Entry>, threshold: int) {
    |a| == |e| && Compare(a, e, threshold).errors == []
  }

  // ---- Where a partner can be

  lemma {:induction false} NearIsInTheWindow(a: Entry, e: seq<Entry>, i: nat, j: nat, threshold: int)
    requires i < |e|
    ensures var r := FindNear(a, e, i, j, threshold);
            r.Some? ==> j <= r.value < |e| && e[r.value].time - e[i].time < threshold && Same(a, e[r.value], threshold)
    decreases |e| - j
  {
    if j < |e| && e[j].time - e[i].time < threshold && !Same(a, e[j], threshold) {
      NearIsInTheWindow(a, e, i, j + 1, threshold);
    }
  }

  lemma PartnerIsNear(a: Entry, e: seq<Entry>, i: nat, threshold: int)
    requires i < |e|
    ensures var r := Partner(a, e, i, threshold);
            r.Some? ==> && i <= r.value < |e| && Same(a, e[r.value], threshold)
                        && (r.value == i || e[r.value].time - e[i].time < threshold)
  {
    NearIsInTheWindow(a, e, i, i + 1, threshold);
  }

  /** The item may be compared with the expected item at j: the messages agree, the relative times are close, and if
      the place is a later one, the message at i is another and all places up to j are inside the window. */
  predicate Acceptable(a: Entry, e: seq<Entry>, threshold: int, i: nat, j: nat)
    requires i <= j < |e|
  {
    && a.msg == e[j].msg && -threshold <= a.relative - e[j].relative <= threshold
    && (i == j || (a.msg != e[i].msg && forall k | i < k <= j :: e[k].time - e[i].time < threshold))
  }

  lemma {:induction false} NearIsFirst(a: Entry, e: seq<Entry>, i: nat, j: nat, threshold: int)
    requires i < j <= |e| && a.msg != e[i].msg
    requires forall k | i < k < j :: e[k].time - e[i].time < threshold
    ensures match FindNear(a, e, i, j, threshold)
            case None => forall k | j <= k < |e| :: !Acceptable(a, e, threshold, i, k)
            case Some(g) =>
              j <= g < |e| && Acceptable(a, e, threshold, i, g) &&
              forall k | j <= k < g :: !Acceptable(a, e, threshold, i, k)
    decreases |e| - j
  {
    if j < |e| && e[j].time - e[i].time < threshold && !Same(a, e[j], threshold) {
      NearIsFirst(a, e, i, j + 1, threshold);
    }
  }

  lemma PartnerIsFirst(a: Entry, e: seq<Entry>, i: nat, threshold: int)
    requires i < |e|
    ensures match Partner(a, e, i, threshold)
            case None => forall k | i <= k < |e| :: !Acceptable(a, e, threshold, i, k)
            case Some(g) =>
              i <= g < |e| && Acceptable(a, e, threshold, i, g) &&
              forall k | i <= k < g :: !Acceptable(a, e, threshold, i, k)
  {
    if a.msg != e[i].msg {
      NearIsFirst(a, e, i, i + 1, threshold);
    }
  }

  /** What one round does with the log as its messages have moved: the message of the first acceptable place g, if there
      is any, changes places with that at i, and the item has found its partner; otherwise it is an error, and no
      message moves. */
  predicate RoundWith(a: Entry, e: seq<Entry>, before: Progress, i: nat, threshold: int, after: Progress,
                      now: seq<Entry>, g: nat)
    requires Fits(before, |e|) && i < |e|
  {
    && i <= g <= |e| == |now|
    && (forall q | 0 <= q < |e| :: now[q] == Entry(e[q].time, e[before.origin[q]].msg, e[q].relative))
    && (forall k | i <= k < g :: !Acceptable(a, now, threshold, i, k))
    && (g < |e| ==> Acceptable(a, now, threshold, i, g))
    && after == if g < |e| then Progress(before.origin[i := before.origin[g]][g := before.origin[i]],
                                         before.partner + [g], before.errors)
                else Progress(before.origin, before.partner + [i], before.errors + [i])
  }

  ghost predicate IsRound(a: Entry, e: seq<Entry>, before: Progress, i: nat, threshold: int, after: Progress)
    requires Fits(before, |e|) && i < |e|
  {
    exists now, g :: RoundWith(a, e, before, i, threshold, after, now, g)
  }

  lemma RoundIsStep(a: seq<Entry>, e: seq<Entry>, p: Progress, i: nat, threshold: int, after: Progress,
                    now: seq<Entry>, g: nat)
    requires |a| == |e| && Fits(p, |e|) && i < |e| && RoundWith(a[i], e, p, i, threshold, after, now, g)
    ensures Step(a, e, p, i, threshold) == after
  {
    FirstIsPartner(a[i], now, i, g, threshold);
    assert now == Moved(e, p.origin);
  }

  lemma FirstIsPartner(a: Entry, e: seq<Entry>, i: nat, g: nat, threshold: int)
    requires i <= g <= |e| && i < |e| && forall k | i <= k < g :: !Acceptable(a, e, threshold, i, k)
    requires g < |e| ==> Acceptable(a, e, threshold, i, g)
    ensures Partner(a, e, i, threshold) == if g < |e| then Some(g) else None
  {
    PartnerIsFirst(a, e, i, threshold);
  }

  /** There always is such a round, and only one. */
  lemma RoundIffStep(a: seq<Entry>, e: seq<Entry>, p: Progress, i: nat, threshold: int, after: Progress)
    requires |a| == |e| && Fits(p, |e|) && i < |e|
    ensures IsRound(a[i], e, p, i, threshold, after) <==> after == Step(a, e, p, i, threshold)
  {
    if now, g :| RoundWith(a[i], e, p, i, threshold, after, now, g) {
      RoundIsStep(a, e, p, i, threshold, after, now, g);
    }
    var now, g := StepIsRound(a, e, p, i, threshold);
  }

  lemma StepIsRound(a: seq<Entry>, e: seq<Entry>, p: Progress, i: nat, threshold: int)
    returns (now: seq<Entry>, g: nat)
    requires |a| == |e| && Fits(p, |e|) && i < |e|
    ensures RoundWith(a[i], e, p, i, threshold, Step(a, e, p, i, threshold), now, g)
  {
    now := Moved(e, p.origin);
    PartnerIsFirst(a[i], now, i, threshold);
    g := match Partner(a[i], now, i, threshold) case Some(j) => j case None => |e|;
  }

  /** Whatever goes from the logs as they are, place by place and by such rounds only, comes to what the comparison
      comes to. */
  lemma RoundsAreComparison(a: seq<Entry>, e: seq<Entry>, threshold: int, rounds: seq<Progress>)
    requires |a| == |e| && |rounds| == |e| + 1 && rounds[0] == Progress(seq(|e|, i => i), [], [])
    requires forall i | 0 <= i < |e| :: Fits(rounds[i], |e|) && IsRound(a[i], e, rounds[i], i, threshold, rounds[i + 1])
    ensures Compare(a, e, threshold) == rounds[|e|]
  {
    RoundsFrom(a, e, threshold, rounds, 0);
  }

  lemma {:induction false} RoundsFrom(a: seq<Entry>, e: seq<Entry>, threshold: int, rounds: seq<Progress>, i: nat)
    requires |a| == |e| && |rounds| == |e| + 1 && i <= |e| && Fits(rounds[i], |e|)
    requires forall k | i <= k < |e| :: Fits(rounds[k], |e|) && IsRound(a[k], e, rounds[k], k, threshold, rounds[k + 1])
    ensures Loop(a, e, rounds[i], i, threshold) == rounds[|e|]
    decreases |e| - i
  {
    if i < |e| {
      AfterRound(a, e, rounds[i], i, threshold, rounds[i + 1]);
      RoundsFrom(a, e, threshold, rounds, i + 1);
    }
  }

  lemma AfterRound(a: seq<Entry>, e: seq<Entry>, p: Progress, i: nat, threshold: int, after: Progress)
    requires |a| == |e| && Fits(p, |e|) && i < |e| && IsRound(a[i], e, p, i, threshold, after)
    ensures Fits(after, |e|) && Loop(a, e, p, i, threshold) == Loop(a, e, after, i + 1, threshold)
  {
    RoundIffStep(a, e, p, i, threshold, after);
  }

  // ---- What a comparison does

  predicate Sorted(e: seq<Entry>) {
    forall i, j | 0 <= i <= j < |e| :: e[i].time <= e[j].time
  }

  /** A message may come from an earlier place, or from a later one inside the window. */
  predicate MayCome(e: seq<Entry>, threshold: int, from: nat, to: nat)
    requires from < |e| && to < |e|
  {
    from <= to || e[from].time - e[to].time < threshold
  }

  /** The actual item has the message that was moved to its place, and a relative time close to that of a place
      that is its own or inside its window. */
  predicate MatchedAt(a: Entry, e: seq<Entry>, threshold: int, from: nat, at: nat, q: nat)
    requires from < |e| && q < |e|
  {
    && q <= at < |e| && a.msg == e[from].msg
    && Abs(a.relative - e[at].relative) <= threshold
    && (at == q || e[at].time - e[q].time < threshold)
  }

  /** The invariant of the comparison before place i. */
  ghost predicate LoopInv(a: seq<Entry>, e: seq<Entry>, threshold: int, p: Progress, i: nat)
    requires |a| == |e|
  {
    && i <= |e| && |p.partner| == i && |p.origin| == |e| && IsPermutation(p.origin)
    && (forall q | 0 <= q < i :: q in p.errors || MatchedAt(a[q], e, threshold, p.origin[q], p.partner[q], q))
    // a message not yet placed has only drifted later
    && (forall q | i <= q < |e| :: p.origin[q] <= q)
    && (Sorted(e) ==> forall q | 0 <= q < i :: MayCome(e, threshold, p.origin[q], q))
  }

  lemma StepKeeps(a: seq<Entry>, e: seq<Entry>, threshold: int, p: Progress, i: nat)
    requires |a| == |e| && i < |a| && LoopInv(a, e, threshold, p, i)
    ensures LoopInv(a, e, threshold, Step(a, e, p, i, threshold), i + 1)
  {
    PartnerIsNear(a[i], Moved(e, p.origin), i, threshold);
    match Partner(a[i], Moved(e, p.origin), i, threshold) {
      case Some(j) => SwapKeeps(a, e, threshold, p, i, j);
      case None =>
    }
  }

  lemma SwapKeeps(a: seq<Entry>, e: seq<Entry>, threshold: int, p: Progress, i: nat, j: nat)
    requires |a| == |e| && i <= j < |a| && LoopInv(a, e, threshold, p, i)
    requires MatchedAt(a[i], e, threshold, p.origin[j], j, i)
    ensures LoopInv(a, e, threshold, Progress(Swapped(p.origin, i, j), p.partner + [j], p.errors), i + 1)
  {
    SwapPermutes(p.origin, i, j);
  }

  lemma {:induction false} LoopKeeps(a: seq<Entry>, e: seq<Entry>, threshold: int, p: Progress, i: nat)
    requires |a| == |e| && LoopInv(a, e, threshold, p, i)
    ensures LoopInv(a, e, threshold, Loop(a, e, p, i, threshold), |e|)
    decreases |a| - i
  {
    if i < |a| {
      StepKeeps(a, e, threshold, p, i);
      LoopKeeps(a, e, threshold, Step(a, e, p, i, threshold), i + 1);
    }
  }

  /** After any comparison the expected messages have been permuted; an item without an error has the message
      moved to its place and a relative time within the threshold of a near place; and when the expected times
      do not decrease, no message has been pulled forward by the threshold or more. */
  lemma ComparisonOutcome(a: seq<Entry>, e: seq<Entry>, threshold: int)
    requires |a| == |e|
    ensures IsPermutation(Compare(a, e, threshold).origin) && |Compare(a, e, threshold).partner| == |e|
    ensures forall q | 0 <= q < |e| :: q in Compare(a, e, threshold).errors ||
              MatchedAt(a[q], e, threshold, Compare(a, e, threshold).origin[q], Compare(a, e, threshold).partner[q], q)
    ensures Sorted(e) ==> forall q | 0 <= q < |e| :: MayCome(e, threshold, Compare(a, e, threshold).origin[q], q)
  {
    LoopKeeps(a, e, threshold, Initial(|e|), 0);
  }

  // ---- Exactly which logs are accepted

  /** A way to explain the actual messages by the expected ones inside the window. */
  ghost predicate Explains(a: seq<Entry>, e: seq<Entry>, threshold: int, p: seq<nat>) {
    && |a| == |e| == |p| && IsPermutation(p)
    && forall q | 0 <= q < |a| :: a[q].msg == e[p[q]].msg && MayCome(e, threshold, p[q], q)
  }

  predicate Close(x: Entry, y: Entry, threshold: int) {
    Abs(x.relative - y.relative) <= threshold
  }

  /** A place inside the window of another, which is not later. */
  predicate InWindow(e: seq<Entry>, threshold: int, from: nat, j: nat)
    requires from < |e| && j < |e|
  {
    e[j].time - e[from].time < threshold
  }

  /** The place may have to be served from another one: its messages differ, or it may have to serve an earlier
      place from i on. */
  predicate MayMove(a: seq<Entry>, e: seq<Entry>, threshold: int, i: nat, q: nat)
    requires |a| == |e| && i <= q < |a|
  {
    a[q].msg != e[q].msg || exists h :: i <= h < q && InWindow(e, threshold, h, q)
  }

  /** The relative time of a place is no reason to reject: it is close to the one expected there; where messages may
      have to move, also to those of the later places in the window. */
  predicate StaysClose(a: seq<Entry>, e: seq<Entry>, threshold: int, i: nat, q: nat)
    requires |a| == |e| && i <= q < |a|
  {
    && Close(a[q], e[q], threshold)
    && (MayMove(a, e, threshold, i, q) ==>
          forall j {:trigger Close(a[q], e[j], threshold)} | q < j < |a| && InWindow(e, threshold, q, j) ::
            Close(a[q], e[j], threshold))
  }

  /** So from place i on.  A pause that both logs make is no hindrance, however long it is. */
  predicate CloseFrom(a: seq<Entry>, e: seq<Entry>, threshold: int, i: nat) {
    |a| == |e| && forall q | i <= q < |a| :: StaysClose(a, e, threshold, i, q)
  }

  /** A plan for the places from i on: which place each of them can still be served from. */
  ghost predicate Plan(a: seq<Entry>, e: seq<Entry>, threshold: int, plan: seq<nat>, i: nat) {
    && |a| == |e| == |plan|
    && (forall q | i <= q < |a| ::
          i <= plan[q] < |a| && a[q].msg == e[plan[q]].msg && MayCome(e, threshold, plan[q], q))
    && (forall q, r | i <= q < r < |a| :: plan[q] != plan[r])
  }

  lemma {:induction false} NearFindsACandidate(a: Entry, e: seq<Entry>, i: nat, j: nat, s: nat, threshold: int)
    requires i < j <= s < |e| && Sorted(e) && e[s].time - e[i].time < threshold && Same(a, e[s], threshold)
    ensures FindNear(a, e, i, j, threshold).Some?
    ensures FindNear(a, e, i, j, threshold).value <= s
    decreases s - j
  {
    if !Same(a, e[j], threshold) {
      NearFindsACandidate(a, e, i, j + 1, s, threshold);
    }
  }

  /** The exchange argument: whatever place the comparison serves i from, the others can still be served. */
  lemma Exchange(a: seq<Entry>, e: seq<Entry>, threshold: int, plan: seq<nat>, i: nat) returns (g: nat, rest: seq<nat>)
    requires |a| == |e| && i < |a| && Sorted(e) && CloseFrom(a, e, threshold, i)
    requires Plan(a, e, threshold, plan, i)
    ensures i <= g < |e| && Partner(a[i], e, i, threshold) == Some(g)
    ensures Plan(a, SwapMsg(e, i, g), threshold, rest, i + 1) && CloseFrom(a, SwapMsg(e, i, g), threshold, i + 1)
  {
    var s := plan[i];
    assert StaysClose(a, e, threshold, i, i);
    if a[i].msg != e[i].msg {
      assert MayMove(a, e, threshold, i, i) && InWindow(e, threshold, i, s);
      assert Close(a[i], e[s], threshold);
      NearFindsACandidate(a[i], e, i, i + 1, s, threshold);
    }
    PartnerIsNear(a[i], e, i, threshold);
    g := Partner(a[i], e, i, threshold).value;
    rest := NextPlan(a, e, threshold, plan, i, g);
    StillClose(a, e, threshold, i, g);
  }

  /** Place g serves i, and whatever i would have served is served from where g's message would have come from. */
  lemma NextPlan(a: seq<Entry>, e: seq<Entry>, threshold: int, plan: seq<nat>, i: nat, g: nat) returns (rest: seq<nat>)
    requires |a| == |e| && i < |a| && Sorted(e) && Plan(a, e, threshold, plan, i)
    requires i <= g <= |a| - 1 && a[i].msg == e[g].msg && (a[i].msg == e[i].msg ==> g == i)
    requires g <= plan[i] || g == i
    ensures Plan(a, SwapMsg(e, i, g), threshold, rest, i + 1)
  {
    var s := plan[i];
    rest := seq(|a|, q requires 0 <= q < |a| => if plan[q] == g then s else if plan[q] == i then g else plan[q]);
  }

  /** A swap with a place of the window leaves the rest close. */
  lemma StillClose(a: seq<Entry>, e: seq<Entry>, threshold: int, i: nat, g: nat)
    requires i < |a| && CloseFrom(a, e, threshold, i) && i <= g < |a| && (g == i || InWindow(e, threshold, i, g))
    ensures CloseFrom(a, SwapMsg(e, i, g), threshold, i + 1)
  {
    var r := SwapMsg(e, i, g);
    assert forall q | 0 <= q < |e| :: r[q].time == e[q].time && r[q].relative == e[q].relative;
    var next := i + 1;
    forall q | next <= q < |a|
      ensures StaysClose(a, r, threshold, next, q)
    {
      assert StaysClose(a, e, threshold, i, q);
      MovesLater(a, e, threshold, i, g, q);
      forall j | q < j < |a| && InWindow(r, threshold, q, j) && MayMove(a, r, threshold, i + 1, q)
        ensures Close(a[q], r[j], threshold)
      {
        assert InWindow(e, threshold, q, j) && Close(a[q], e[j], threshold);
      }
    }
  }

  /** What may move after the swap might have moved before. */
  lemma MovesLater(a: seq<Entry>, e: seq<Entry>, threshold: int, i: nat, g: nat, q: nat)
    requires |a| == |e| && i <= g < |a| && i < q < |a| && (g == i || InWindow(e, threshold, i, g))
    ensures MayMove(a, SwapMsg(e, i, g), threshold, i + 1, q) ==> MayMove(a, e, threshold, i, q)
  {
    var r := SwapMsg(e, i, g);
    assert forall k | 0 <= k < |e| :: r[k].time == e[k].time;
    if q != g && a[q].msg == e[q].msg && MayMove(a, r, threshold, i + 1, q) {
      var h :| i < h < q && InWindow(r, threshold, h, q);
      assert InWindow(e, threshold, h, q);
    }
  }

  lemma {:induction false} PlansSucceed(a: seq<Entry>, e: seq<Entry>, p: Progress, threshold: int, plan: seq<nat>,
                                        i: nat)
    requires |a| == |e| && Fits(p, |e|) && i <= |a| && Sorted(e) && CloseFrom(a, Moved(e, p.origin), threshold, i)
    requires Plan(a, Moved(e, p.origin), threshold, plan, i)
    ensures Loop(a, e, p, i, threshold).errors == p.errors
    decreases |a| - i
  {
    if i < |a| {
      var next, rest := NextByPlan(a, e, p, threshold, plan, i);
      PlansSucceed(a, e, next, threshold, rest, i + 1);
    }
  }

  lemma NextByPlan(a: seq<Entry>, e: seq<Entry>, p: Progress, threshold: int, plan: seq<nat>, i: nat)
    returns (next: Progress, rest: seq<nat>)
    requires |a| == |e| && Fits(p, |e|) && i < |a| && Sorted(e) && CloseFrom(a, Moved(e, p.origin), threshold, i)
    requires Plan(a, Moved(e, p.origin), threshold, plan, i)
    ensures Fits(next, |e|) && next.errors == p.errors && Plan(a, Moved(e, next.origin), threshold, rest, i + 1)
    ensures CloseFrom(a, Moved(e, next.origin), threshold, i + 1)
    ensures Loop(a, e, p, i, threshold) == Loop(a, e, next, i + 1, threshold)
  {
    var g;
    assert Sorted(Moved(e, p.origin));
    g, rest := Exchange(a, Moved(e, p.origin), threshold, plan, i);
    next := Step(a, e, p, i, threshold);
    assert next.origin == Swapped(p.origin, i, g) && next.errors == p.errors;
    SwapMoves(e, p.origin, i, g);
  }

  /** The greedy search decides its problem: with non-decreasing expected times, and relative times that are close
      where messages may have to move, two logs are accepted exactly when some permutation explains the one by the
      other inside the window. */
  lemma AcceptedIffExplained(a: seq<Entry>, e: seq<Entry>, threshold: int)
    requires Sorted(e) && CloseFrom(a, e, threshold, 0)
    ensures Accepted(a, e, threshold) <==> exists p :: Explains(a, e, threshold, p)
  {
    if Accepted(a, e, threshold) {
      ComparisonOutcome(a, e, threshold);
      assert Explains(a, e, threshold, Compare(a, e, threshold).origin);
    }
    if p :| Explains(a, e, threshold, p) {
      NothingMoved(e);
      PlansSucceed(a, e, Initial(|e|), threshold, p, 0);
    }
  }
}
