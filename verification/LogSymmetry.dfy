/** Which of two logs is called the expected one. */
module LogSymmetry {
  import opened LogMatching

  function Places(p: seq<nat>): set<nat> { set m | m in p }

  lemma {:induction false} PlacesCount(p: seq<nat>)
    requires forall i, j | 0 <= i < j < |p| :: p[i] != p[j]
    ensures |Places(p)| == |p|
  {
    if p != [] {
      var front, last := p[..|p| - 1], p[|p| - 1];
      PlacesCount(front);
      assert p == front + [last];
      assert Places(p) == Places(front) + {last};
    }
  }

  function Below(n: nat): (r: set<nat>)
    ensures |r| == n && forall m: nat :: m in r <==> m < n
  {
    if n == 0 then {} else Below(n - 1) + {n - 1}
  }

  lemma SameSize(a: set<nat>, b: set<nat>)
    requires a <= b && |a| == |b|
    ensures a == b
  {
    assert b == a + (b - a);
    assert |b - a| == 0;
  }

  /** A permutation reaches every place. */
  lemma PermutationReaches(p: seq<nat>, m: nat)
    requires IsPermutation(p) && m < |p|
    ensures m in p
  {
    PlacesCount(p);
    SameSize(Places(p), Below(|p|));
    assert m in Places(p);
  }

  function PlaceOf(p: seq<nat>, m: nat): (q: nat)
    ensures m in p ==> q < |p| && p[q] == m
  {
    if p == [] || p[0] == m then 0 else 1 + PlaceOf(p[1..], m)
  }

  function Inverse(p: seq<nat>): seq<nat> {
    seq(|p|, m requires 0 <= m < |p| => PlaceOf(p, m))
  }

  lemma InversePermutes(p: seq<nat>)
    requires IsPermutation(p)
    ensures IsPermutation(Inverse(p)) && forall m | 0 <= m < |p| :: p[Inverse(p)[m]] == m
  {
    forall m | 0 <= m < |p|
      ensures Inverse(p)[m] < |p| && p[Inverse(p)[m]] == m
    {
      PermutationReaches(p, m);
    }
  }

  predicate DistinctMessages(log: seq<Entry>) {
    forall i, j | 0 <= i < j < |log| :: log[i].msg != log[j].msg
  }

  /** Of two logs in order whose relative times are close, with no message twice and explained by a permutation,
      the first accepts the second as well if and only if no message is pulled forward by the threshold or more on
      its way back. */
  lemma SymmetricIff(a: seq<Entry>, e: seq<Entry>, threshold: int, p: seq<nat>)
    requires Sorted(a) && Sorted(e) && DistinctMessages(e)
    requires CloseFrom(a, e, threshold, 0) && CloseFrom(e, a, threshold, 0)
    requires Explains(a, e, threshold, p)
    ensures Accepted(a, e, threshold)
    ensures Accepted(e, a, threshold) <==> forall q | 0 <= q < |a| :: MayCome(a, threshold, q, p[q])
  {
    AcceptedIffExplained(a, e, threshold);
    AcceptedIffExplained(e, a, threshold);
    if forall q | 0 <= q < |a| :: MayCome(a, threshold, q, p[q]) {
      LeadsBackInverse(a, e, threshold, p);
    }
    if r :| Explains(e, a, threshold, r) {
      forall q | 0 <= q < |a|
        ensures MayCome(a, threshold, q, p[q])
      {
        OnlyWayBack(a, e, threshold, p, r, q);
      }
    }
  }

  lemma OnlyWayBack(a: seq<Entry>, e: seq<Entry>, threshold: int, p: seq<nat>, r: seq<nat>, q: nat)
    requires Explains(a, e, threshold, p) && Explains(e, a, threshold, r) && DistinctMessages(e) && q < |a|
    ensures MayCome(a, threshold, q, p[q])
  {
    var m := p[q];
    assert e[m].msg == a[r[m]].msg && a[r[m]].msg == e[p[r[m]]].msg;
    assert p[r[m]] == m;
    assert r[m] == q;
  }

  /** A reordering of the second log into the first that pulls no message forward by the threshold or more when it is
      undone. */
  ghost predicate LeadsBack(a: seq<Entry>, e: seq<Entry>, threshold: int, p: seq<nat>) {
    && |a| == |e| == |p| && IsPermutation(p)
    && forall q | 0 <= q < |a| :: a[q].msg == e[p[q]].msg && MayCome(a, threshold, q, p[q])
  }

  lemma LeadsBackInverse(a: seq<Entry>, e: seq<Entry>, threshold: int, p: seq<nat>)
    requires LeadsBack(a, e, threshold, p)
    ensures Explains(e, a, threshold, Inverse(p))
  {
    InversePermutes(p);
  }

  lemma InverseLeadsBack(a: seq<Entry>, e: seq<Entry>, threshold: int, r: seq<nat>)
    requires Explains(e, a, threshold, r)
    ensures LeadsBack(a, e, threshold, Inverse(r))
  {
    InversePermutes(r);
    var p := Inverse(r);
    forall q | 0 <= q < |a|
      ensures a[q].msg == e[p[q]].msg && MayCome(a, threshold, q, p[q])
    {
      assert r[p[q]] == q;
    }
  }

  /** The way back in general, for logs that may repeat messages. */
  lemma WayBackIff(a: seq<Entry>, e: seq<Entry>, threshold: int)
    requires Sorted(a) && CloseFrom(e, a, threshold, 0)
    ensures Accepted(e, a, threshold) <==> exists p :: LeadsBack(a, e, threshold, p)
  {
    AcceptedIffExplained(e, a, threshold);
    if p :| LeadsBack(a, e, threshold, p) {
      LeadsBackInverse(a, e, threshold, p);
    }
    if r :| Explains(e, a, threshold, r) {
      InverseLeadsBack(a, e, threshold, r);
    }
  }

  const EARLY: seq<Entry> := [Entry(0, "x", 0), Entry(6, "y", 6), Entry(12, "z", 6)]
  const LATE: seq<Entry> := [Entry(0, "y", 0), Entry(6, "z", 6), Entry(12, "x", 6)]

  /** Only pulling forward is limited: a message may drift later without bound, so acceptance depends on which log is
      called the expected one. */
  lemma NotSymmetric()
    ensures Accepted(LATE, EARLY, 10) && !Accepted(EARLY, LATE, 10)
  {
    Regular();
    Rotation();
    SymmetricIff(LATE, EARLY, 10, [1, 2, 0]);
    assert !MayCome(LATE, 10, 2, [1, 2, 0][2]);
  }

  /** The forward window is no part of it: the late log is accepted, and no reordering explains the early one by it. */
  lemma ForwardWindowIsNoPart()
    ensures Accepted(LATE, EARLY, 10) && !exists p :: Explains(EARLY, LATE, 10, p)
  {
    NotSymmetric();
    Regular();
    AcceptedIffExplained(EARLY, LATE, 10);
  }

  lemma Rotation()
    ensures Explains(LATE, EARLY, 10, [1, 2, 0])
  {
    var p := [1, 2, 0];
    assert forall q | 0 <= q < 3 :: LATE[q].msg == EARLY[p[q]].msg && MayCome(EARLY, 10, p[q], q);
  }

  lemma AllCloseIsCloseFrom(a: seq<Entry>, e: seq<Entry>, threshold: int)
    requires |a| == |e| && forall i, j | 0 <= i < |a| && 0 <= j < |e| :: Close(a[i], e[j], threshold)
    ensures CloseFrom(a, e, threshold, 0)
  {
  }

  lemma Regular()
    ensures CloseFrom(LATE, EARLY, 10, 0) && CloseFrom(EARLY, LATE, 10, 0)
    ensures Sorted(EARLY) && Sorted(LATE) && DistinctMessages(EARLY)
  {
    AllCloseIsCloseFrom(LATE, EARLY, 10);
    AllCloseIsCloseFrom(EARLY, LATE, 10);
    assert "x"[0] != "y"[0] && "x"[0] != "z"[0] && "y"[0] != "z"[0];
  }
}
