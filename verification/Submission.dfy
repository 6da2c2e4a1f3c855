/** Submitting a job: three writes without a transaction, any of which may fail or be the last one the process
    makes. */
module Submission {

  /** How a write ends: a failure may be reported although the write took effect, and the process may die before
      it. */
  datatype Fate = Applied | Failed | AppliedButFailed | Died

  predicate TakesEffect(f: Fate) { f == Applied || f == AppliedButFailed }

  datatype Request = Request(server: string, onHold: bool)

  /** Whether the counter can be read, and the fates of the writes of the job node, the counter and the assign
      key. */
  datatype Fates = Fates(readable: bool, node: Fate, counter: Fate, assign: Fate)

  /** The part of the store that submissions touch.  Of a job node only the request it was written for matters. */
  datatype State = State(
    counter: int,
    nodes: map<int, Request>,
    assignedIds: set<int>,   // history: every ID that was ever assigned
    returned: seq<int>)   // history: every ID returned without an error, in order

  datatype Result = Returned(id: int) | Errored | Dead

  function Submit(s: State, q: Request, f: Fates): (State, Result) {
    var id := s.counter + 1;
    var s1 := if TakesEffect(f.node) then s.(nodes := s.nodes[id := q]) else s;
    if !f.readable then (s, Errored)
    else if f.node == Died then (s1, Dead)
    else if f.node != Applied then (s1, Errored)
    else
      var s2 := if TakesEffect(f.counter) then s1.(counter := id) else s1;
      if f.counter == Died then (s2, Dead)
      else if q.onHold then
        // the error of the counter's write is returned only here
        if f.counter == Applied then (s2.(returned := s2.returned + [id]), Returned(id)) else (s2, Errored)
      else
        var s3 := if TakesEffect(f.assign) then s2.(assignedIds := s2.assignedIds + {id}) else s2;
        if f.assign == Died then (s3, Dead)
        else if f.assign != Applied then (s3, Errored)
        else (s3.(returned := s3.returned + [id]), Returned(id))
  }

  /** The counter's write fails without effect, nobody is told, and the job is assigned all the same. */
  predicate LosesCount(q: Request, f: Fates) {
    f.readable && f.node == Applied && f.counter == Failed && !q.onHold && TakesEffect(f.assign)
  }

  /** Which ID a submission gives, when it returns at all, and what becomes of the counter. */
  lemma SubmitCounts(s: State, q: Request, f: Fates)
    ensures var (t, result) := Submit(s, q, f);
      && (result.Returned? <==> f.readable && f.node == Applied &&
                                (if q.onHold then f.counter == Applied else f.counter != Died && f.assign == Applied))
      && (result.Returned? ==> result.id == s.counter + 1 && t.returned == s.returned + [s.counter + 1])
      && (!result.Returned? ==> t.returned == s.returned)
      && t.counter == (if f.readable && f.node == Applied && TakesEffect(f.counter) then s.counter + 1 else s.counter)
      && t.nodes == (if f.readable && TakesEffect(f.node) then s.nodes[s.counter + 1 := q] else s.nodes)
  {
  }

  predicate AllApplied(runs: seq<(Request, Fates)>) {
    forall k | 0 <= k < |runs| :: runs[k].1 == Fates(true, Applied, Applied, Applied)
  }

  /** When every write takes effect, n submissions return the next n IDs, one after the other, and the counter has
      counted them. */
  lemma {:induction false} IdsAreConsecutive(s: State, runs: seq<(Request, Fates)>)
    requires AllApplied(runs)
    ensures SubmitAll(s, runs).returned == s.returned + NextIds(s.counter, |runs|)
    ensures SubmitAll(s, runs).counter == s.counter + |runs|
  {
    var n := |runs|;
    if n == 0 {
      assert s.returned + [] == s.returned;
    } else {
      IdsAreConsecutive(s, runs[..n - 1]);
      SubmitCounts(SubmitAll(s, runs[..n - 1]), runs[n - 1].0, runs[n - 1].1);
      assert NextIds(s.counter, n) == NextIds(s.counter, n - 1) + [s.counter + n];
      AppendOne(s.returned, NextIds(s.counter, n - 1), s.counter + n);
    }
  }

  function NextIds(counter: int, n: nat): seq<int> {
    seq(n, k requires 0 <= k < n => counter + 1 + k)
  }

  /** Every node is then the request of its own ID, and exactly the jobs that are not on hold are assigned. */
  lemma {:induction false} NodesAreRequests(s: State, runs: seq<(Request, Fates)>, id: int)
    requires AllApplied(runs)
    ensures var t, k := SubmitAll(s, runs), id - s.counter - 1;
      if 0 <= k < |runs| then
        id in t.nodes && t.nodes[id] == runs[k].0 && (id in t.assignedIds <==> id in s.assignedIds || !runs[k].0.onHold)
      else
        (id in t.assignedIds <==> id in s.assignedIds) && (id in t.nodes <==> id in s.nodes) &&
        (id in t.nodes ==> t.nodes[id] == s.nodes[id])
  {
    if runs != [] {
      var n, front := |runs|, runs[..|runs| - 1];
      NodesAreRequests(s, front, id);
      IdsAreConsecutive(s, front);
      assert id - s.counter - 1 < n - 1 && id > s.counter ==> runs[id - s.counter - 1] == front[id - s.counter - 1];
    }
  }

  lemma AppendOne(a: seq<int>, b: seq<int>, id: int)
    ensures a + (b + [id]) == a + b + [id]
  {
  }

  function SubmitAll(s: State, runs: seq<(Request, Fates)>): State {
    if runs == [] then s
    else
      var last := runs[|runs| - 1];
      Submit(SubmitAll(s, runs[..|runs| - 1]), last.0, last.1).0
  }

  predicate Increasing(ids: seq<int>) {
    forall i, j | 0 <= i < j < |ids| :: ids[i] < ids[j]
  }

  /** IDs in use are counted; whatever lies beyond is at most one node that was never assigned or returned. */
  ghost predicate Inv(s: State) {
    && Increasing(s.returned)
    && (forall id | id in s.returned :: id <= s.counter && id in s.nodes)
    && (forall id | id in s.assignedIds :: id <= s.counter && id in s.nodes && !s.nodes[id].onHold)
    && (forall id | id in s.nodes :: id <= s.counter + 1)
  }

  /** A submission keeps this exactly when its count is not lost. */
  lemma SubmitKeepsIff(s: State, q: Request, f: Fates)
    requires Inv(s)
    ensures Inv(Submit(s, q, f).0) <==> !LosesCount(q, f)
  {
    if LosesCount(q, f) {
      var t := Submit(s, q, f).0;
      assert t.counter + 1 in t.assignedIds;
    } else {
      SubmitKeeps(s, q, f);
    }
  }

  lemma SubmitKeeps(s: State, q: Request, f: Fates)
    requires Inv(s) && !LosesCount(q, f)
    ensures Inv(Submit(s, q, f).0)
  {
    IncreasingAppend(s.returned, s.counter + 1);
    if f.node == Applied {
      assert Submit(s, q, f).0.nodes == s.nodes[s.counter + 1 := q] || !f.readable;
    }
  }

  lemma IncreasingAppend(ids: seq<int>, id: int)
    requires Increasing(ids) && forall earlier | earlier in ids :: earlier < id
    ensures Increasing(ids + [id])
  {
    assert forall i | 0 <= i < |ids| :: ids[i] in ids;
  }

  ghost predicate HoldsThroughout(s: State, runs: seq<(Request, Fates)>) {
    forall k | 0 <= k <= |runs| :: Inv(SubmitAll(s, runs[..k]))
  }

  predicate NoCountIsLost(runs: seq<(Request, Fates)>) {
    forall k | 0 <= k < |runs| :: !LosesCount(runs[k].0, runs[k].1)
  }

  /** Over any series of submissions, one after the other, with failures and deaths at any write: the invariant
      holds all along if and only if no count is lost. */
  lemma {:induction false} ConsistentIffNoCountIsLost(s: State, runs: seq<(Request, Fates)>)
    requires Inv(s)
    ensures HoldsThroughout(s, runs) <==> NoCountIsLost(runs)
  {
    if runs != [] {
      var n, init := |runs| - 1, runs[..|runs| - 1];
      ConsistentIffNoCountIsLost(s, init);
      ThroughoutSplits(s, runs);
      if Inv(SubmitAll(s, init)) {
        SubmitKeepsIff(SubmitAll(s, init), runs[n].0, runs[n].1);
      }
    }
  }

  lemma ThroughoutSplits(s: State, runs: seq<(Request, Fates)>)
    requires runs != []
    ensures var init := runs[..|runs| - 1];
      && (HoldsThroughout(s, runs) <==> HoldsThroughout(s, init) && Inv(SubmitAll(s, runs)))
      && (HoldsThroughout(s, init) ==> Inv(SubmitAll(s, init)))
  {
    var init := runs[..|runs| - 1];
    assert init[..|init|] == init && runs[..|runs|] == runs;
    assert forall k | 0 <= k <= |init| :: init[..k] == runs[..k];
  }

  /** What the invariant means at the end of such a series: returned IDs strictly increase, every assigned ID has
      a node submitted to run and not on hold, and the node that the next submission writes, new or left over, was
      never assigned or returned. */
  lemma SubmissionsAreConsistent(s: State, runs: seq<(Request, Fates)>)
    requires Inv(s) && NoCountIsLost(runs)
    ensures var t := SubmitAll(s, runs);
      && Increasing(t.returned)
      && (forall id | id in t.assignedIds :: id in t.nodes && !t.nodes[id].onHold)
      && t.counter + 1 !in t.assignedIds && t.counter + 1 !in t.returned
  {
    ConsistentIffNoCountIsLost(s, runs);
    assert runs[..|runs|] == runs;
  }

  /** The harm of a lost count: when two submissions in a row return, the second ID is new if and only if the
      first did not lose its count; otherwise it is the same ID, and the first job is overwritten. */
  lemma IdsAreReusedIffCountIsLost(s: State, q: Request, f: Fates, next: Request, g: Fates)
    requires Submit(s, q, f).1.Returned? && Submit(Submit(s, q, f).0, next, g).1.Returned?
    ensures var first, second := Submit(s, q, f), Submit(Submit(s, q, f).0, next, g);
      && (second.1.id > first.1.id <==> !LosesCount(q, f))
      && (LosesCount(q, f) ==> second.1.id == first.1.id && second.0.nodes[first.1.id] == next)
  {
  }

  class Crms {
    var counter: int
    var nodes: map<int, Request>
    ghost var assignedIds: set<int>
    ghost var returned: seq<int>
    var assignKeys: set<(string, int)>

    ghost function View(): State
      reads this
    {
      State(counter, nodes, assignedIds, returned)
    }

    /** The writes in order; the state in between is what is left when the process dies. */
    method SubmitJob(q: Request, f: Fates) returns (result: Result)
      modifies this
      ensures (View(), result) == Submit(old(View()), q, f)
      ensures assignKeys == old(assignKeys) +
        (if f.readable && f.node == Applied && f.counter != Died && !q.onHold &&
            (f.assign == Applied || f.assign == AppliedButFailed)
         then {(q.server, old(counter) + 1)} else {})
    {
      if !f.readable {
        return Errored;
      }
      var id := counter + 1;
      if TakesEffect(f.node) {
        nodes := nodes[id := q];
      }
      if f.node == Died {
        return Dead;
      }
      if f.node != Applied {
        return Errored;
      }
      if TakesEffect(f.counter) {
        counter := id;
      }
      if f.counter == Died {
        return Dead;
      }
      var failed := f.counter != Applied;
      if !q.onHold {
        if TakesEffect(f.assign) {
          assignKeys, assignedIds := assignKeys + {(q.server, id)}, assignedIds + {id};
        }
        if f.assign == Died {
          return Dead;
        }
        failed := f.assign != Applied;
      }
      if failed {
        return Errored;
      }
      returned := returned + [id];
      return Returned(id);
    }
  }
}
