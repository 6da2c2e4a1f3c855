/** Comparisons in which no message moves, and what the relative times of logs add up to. */
module LogOrder {
  import opened LogMatching

  // ---- Logs whose order agrees

  predicate Unmoved(e: seq<Entry>, p: Progress) {
    p.origin == Initial(|e|).origin
  }

  predicate SameFrom(a: seq<Entry>, e: seq<Entry>, threshold: int, i: nat)
    requires |a| == |e|
  {
    forall q | i <= q < |a| :: Same(a[q], e[q], threshold)
  }

  predicate NoSearch(a: seq<Entry>, e: seq<Entry>, threshold: int)
    requires |a| == |e|
  {
    (forall q | 0 <= q < |a| :: a[q].msg == e[q].msg) || (threshold <= 0 && Sorted(e))
  }

  /** A step that finds no later partner moves nothing. */
  lemma StepInPlace(a: seq<Entry>, e: seq<Entry>, p: Progress, threshold: int, i: nat)
    requires |a| == |e| && Unmoved(e, p) && i < |a| && NoSearch(a, e, threshold)
    ensures Unmoved(e, Step(a, e, p, i, threshold))
    ensures Step(a, e, p, i, threshold).errors == if Same(a[i], e[i], threshold) then p.errors else p.errors + [i]
  {
    NothingMoved(e);
    PartnerIsNear(a[i], e, i, threshold);
    assert Swapped(p.origin, i, i) == p.origin;
  }

  lemma NextInPlace(a: seq<Entry>, e: seq<Entry>, p: Progress, threshold: int, i: nat) returns (next: Progress)
    requires |a| == |e| && Unmoved(e, p) && i < |a| && NoSearch(a, e, threshold)
    ensures Fits(next, |e|) && Unmoved(e, next)
    ensures next.errors == if Same(a[i], e[i], threshold) then p.errors else p.errors + [i]
    ensures Loop(a, e, p, i, threshold) == Loop(a, e, next, i + 1, threshold)
  {
    StepInPlace(a, e, p, threshold, i);
    next := Step(a, e, p, i, threshold);
  }

  function Differing(a: seq<Entry>, e: seq<Entry>, threshold: int, i: nat): seq<nat>
    requires |a| == |e| && i <= |a|
    decreases |a| - i
  {
    if i == |a| then []
    else (if Same(a[i], e[i], threshold) then [] else [i]) + Differing(a, e, threshold, i + 1)
  }

  /** Where nothing moves, the errors are the places that differ. */
  lemma {:induction false} ErrorsInPlace(a: seq<Entry>, e: seq<Entry>, p: Progress, threshold: int, i: nat)
    requires |a| == |e| && Unmoved(e, p) && i <= |a| && NoSearch(a, e, threshold)
    ensures Loop(a, e, p, i, threshold).errors == p.errors + Differing(a, e, threshold, i)
    decreases |a| - i
  {
    if i < |a| {
      var next := NextInPlace(a, e, p, threshold, i);
      ErrorsInPlace(a, e, next, threshold, i + 1);
      ErrorsThen(a, e, p.errors, next.errors, Loop(a, e, next, i + 1, threshold).errors, threshold, i);
    } else {
      assert p.errors + [] == p.errors;
    }
  }

  lemma ErrorsThen(a: seq<Entry>, e: seq<Entry>, before: seq<nat>, after: seq<nat>, all: seq<nat>, threshold: int,
                   i: nat)
    requires |a| == |e| && i < |a| && after == if Same(a[i], e[i], threshold) then before else before + [i]
    requires all == after + Differing(a, e, threshold, i + 1)
    ensures all == before + Differing(a, e, threshold, i)
  {
    OneMore(before, i, Same(a[i], e[i], threshold), Differing(a, e, threshold, i + 1));
  }

  lemma OneMore(errors: seq<nat>, i: nat, same: bool, rest: seq<nat>)
    ensures (if same then errors else errors + [i]) + rest == errors + ((if same then [] else [i]) + rest)
  {
  }

  lemma {:induction false} NoneDiffers(a: seq<Entry>, e: seq<Entry>, threshold: int, i: nat)
    requires |a| == |e| && i <= |a|
    ensures Differing(a, e, threshold, i) == [] <==> SameFrom(a, e, threshold, i)
    decreases |a| - i
  {
    if i < |a| {
      NoneDiffers(a, e, threshold, i + 1);
    }
  }

  lemma InOrder(a: seq<Entry>, e: seq<Entry>, threshold: int)
    requires |a| == |e| && NoSearch(a, e, threshold)
    ensures Accepted(a, e, threshold) <==> SameFrom(a, e, threshold, 0)
  {
    ErrorsInPlace(a, e, Initial(|e|), threshold, 0);
    NoneDiffers(a, e, threshold, 0);
  }

  /** Logs with the same messages in the same order are accepted exactly when all relative times are within the
      threshold. */
  lemma SameOrderIsAccepted(a: seq<Entry>, e: seq<Entry>, threshold: int)
    requires |a| == |e| && forall q | 0 <= q < |a| :: a[q].msg == e[q].msg
    ensures Accepted(a, e, threshold) <==>
            forall q | 0 <= q < |a| :: Abs(a[q].relative - e[q].relative) <= threshold
    ensures Accepted(a, e, threshold) <==>
            forall q | 0 <= q < |a| :: -threshold <= a[q].relative - e[q].relative <= threshold
  {
    InOrder(a, e, threshold);
    assert forall q | 0 <= q < |a| :: Same(a[q], e[q], threshold) <==>
             -threshold <= a[q].relative - e[q].relative <= threshold;
  }

  /** Without a positive threshold there is no window: at 0, acceptance is equality of messages and relative
      times, and below 0 nothing is accepted but the empty log. */
  lemma NoWindowIsEquality(a: seq<Entry>, e: seq<Entry>, threshold: int)
    requires |a| == |e| && Sorted(e) && threshold <= 0
    ensures Accepted(a, e, threshold) <==>
            (a == [] || (threshold == 0 && forall q | 0 <= q < |a| ::
                          a[q].msg == e[q].msg && a[q].relative == e[q].relative))
  {
    InOrder(a, e, threshold);
    assert SameFrom(a, e, threshold, 0) <==> forall q | 0 <= q < |a| :: Same(a[q], e[q], threshold);
    if a != [] {
      assert Same(a[0], e[0], threshold) ==> threshold == 0;
    }
  }

  // ---- Spans

  /** What the parser makes of the times: each item's distance to the one before. */
  predicate RelativesOfTimes(log: seq<Entry>) {
    && (log != [] ==> log[0].relative == 0)
    && forall i | 1 <= i < |log| :: log[i].relative == log[i].time - log[i - 1].time
  }

  /** A parsed log in order is close to itself, whatever pauses it makes: inside a window there are none. */
  lemma ParsedIsCloseToItself(log: seq<Entry>, threshold: int)
    requires Sorted(log) && RelativesOfTimes(log) && threshold >= 0
    ensures CloseFrom(log, log, threshold, 0)
  {
    forall q | 0 <= q < |log|
      ensures StaysClose(log, log, threshold, 0, q)
    {
      forall j | q < j < |log| && InWindow(log, threshold, q, j) && MayMove(log, log, threshold, 0, q)
        ensures Close(log[q], log[j], threshold)
      {
        var h :| 0 <= h < q && InWindow(log, threshold, h, q);
        assert log[h].time <= log[q - 1].time <= log[q].time <= log[j - 1].time <= log[j].time;
      }
    }
  }

  function Span(log: seq<Entry>): int {
    if log == [] then 0 else log[|log| - 1].time - log[0].time
  }

  lemma {:induction false} DriftAdds(a: seq<Entry>, e: seq<Entry>, threshold: int, n: nat)
    requires |a| == |e| && 1 <= n <= |a| && RelativesOfTimes(a) && RelativesOfTimes(e)
    requires forall q | 0 <= q < |a| :: Abs(a[q].relative - e[q].relative) <= threshold
    ensures Abs((a[n - 1].time - a[0].time) - (e[n - 1].time - e[0].time)) <= (n - 1) * threshold
  {
    if n > 1 {
      DriftAdds(a, e, threshold, n - 1);
      assert (n - 1) * threshold == (n - 2) * threshold + threshold;
    }
  }

  /** Small drifts add up, but no further: accepted logs with the same messages in the same order differ in
      their spans by at most the threshold for each item but the first. */
  lemma DriftIsBounded(a: seq<Entry>, e: seq<Entry>, threshold: int)
    requires Accepted(a, e, threshold) && a != [] && RelativesOfTimes(a) && RelativesOfTimes(e)
    requires forall q | 0 <= q < |a| :: a[q].msg == e[q].msg
    ensures Abs(Span(a) - Span(e)) <= (|a| - 1) * threshold
  {
    SameOrderIsAccepted(a, e, threshold);
    DriftAdds(a, e, threshold, |a|);
  }
}
