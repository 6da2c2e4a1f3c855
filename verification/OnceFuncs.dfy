/** Functions that run at most once, and the registry that keeps those still to be run.  The registry's own
    operations hold its lock; calls of single functions do not, and may happen at any moment between them. */
module OnceFuncs {

  datatype Phase = Fresh | Running | Done {
    predicate AtLeast(that: Phase) {
      that == Fresh || this == Done || this == that
    }
  }

  class OnceFunc {
    var phase: Phase
    ghost var runs: nat

    ghost predicate Valid()
      reads this
    {
      runs == if phase == Fresh then 0 else 1
    }

    constructor ()
      ensures Valid() && phase == Fresh
    {
      phase, runs := Fresh, 0;
    }

    /** A fresh function is run; if another caller is running it, this one waits for it. */
    method Call()
      requires Valid()
      modifies this
      ensures Valid() && phase == Done
    {
      if phase == Fresh {
        phase, runs := Running, runs + 1;
      }
      phase := Done;
    }

    method Called() returns (called: bool)
      ensures called == (phase == Done)
    {
      called := phase == Done;
    }
  }

  ghost predicate AllValid(fs: seq<OnceFunc>)
    reads fs
  {
    forall f | f in fs :: f.Valid()
  }

  /** No function goes back: one that runs or has run is never run again. */
  twostate predicate OnlyAdvanced(fs: seq<OnceFunc>)
    reads fs
  {
    forall f | f in fs :: f.phase.AtLeast(old(f.phase))
  }

  /** What callers outside the lock do to the functions: start and finish any of them. */
  method OutsideCalls(fs: seq<OnceFunc>)
    requires AllValid(fs)
    modifies fs
    ensures AllValid(fs) && OnlyAdvanced(fs)
  {
    for i := 0 to |fs|
      invariant AllValid(fs) && OnlyAdvanced(fs)
    {
      var phase: Phase := *;
      if phase == Done || (phase == Running && fs[i].phase == Fresh) {
        fs[i].phase, fs[i].runs := phase, 1;
      }
    }
  }

  function Max(a: nat, b: nat): nat { if a < b then b else a }

  ghost predicate Increasing(positions: seq<nat>) {
    forall i, j | 0 <= i < j < |positions| :: positions[i] < positions[j]
  }

  lemma {:induction false} IncreasingCount(positions: seq<nat>, all: set<nat>)
    requires Increasing(positions) && forall k | k in positions :: k in all
    ensures |positions| <= |all|
  {
    if positions != [] {
      var last := |positions| - 1;
      IncreasingCount(positions[..last], all - {positions[last]});
    }
  }

  /** Before place i of a compaction: the cells hold what has been kept, then what is still to be looked at. */
  ghost predicate Compacting(cells: seq<OnceFunc?>, all: seq<OnceFunc>, pos: seq<nat>, kept: seq<nat>, i: nat) {
    && |kept| <= i <= |pos| <= |cells|
    && (|kept| == i ==> kept == pos[..i])
    && Increasing(kept) && (forall k | k in kept :: k in pos[..i])
    && (forall h | 0 <= h < |pos| :: pos[h] < |all|)
    && (forall h | 0 <= h < |kept| :: kept[h] < |all| && cells[h] == all[kept[h]])
    && (forall h | i <= h < |pos| :: cells[h] == all[pos[h]])
  }

  lemma Keep(cells: seq<OnceFunc?>, all: seq<OnceFunc>, pos: seq<nat>, kept: seq<nat>, i: nat)
    requires Compacting(cells, all, pos, kept, i) && i < |pos| && Increasing(pos)
    ensures Compacting(cells[|kept| := cells[i]], all, pos, kept + [pos[i]], i + 1)
  {
    assert pos[..i + 1] == pos[..i] + [pos[i]];
    forall h | 0 <= h < |kept|
      ensures kept[h] < pos[i]
    {
      assert kept[h] in kept && kept[h] in pos[..i];
    }
  }

  lemma Drop(cells: seq<OnceFunc?>, all: seq<OnceFunc>, pos: seq<nat>, kept: seq<nat>, i: nat)
    requires Compacting(cells, all, pos, kept, i) && i < |pos|
    ensures Compacting(cells, all, pos, kept, i + 1)
  {
    assert pos[..i + 1] == pos[..i] + [pos[i]];
  }

  class OnceFuncs {
    var buf: array<OnceFunc?>      // the array behind the slice; its length is the slice's capacity
    var len: nat
    ghost const initialCap: nat
    var added: seq<OnceFunc>       // the handles given out so far, in order; callers hold them
    ghost var pos: seq<nat>        // where in added the functions in the buffer are
    ghost var peak: nat            // the largest number of uncalled functions any Add has met

    ghost function Uncalled(): set<nat>
      reads this, added
    {
      set k | 0 <= k < |added| && added[k].phase != Done
    }

    /** The buffer lists functions in the order they were added, each once, and misses none that has not been
        called; and it has grown no larger than the uncalled functions have required. */
    ghost predicate Valid()
      reads this, buf, added
    {
      && AllValid(added)
      && (forall i, j | 0 <= i < j < |added| :: added[i] != added[j])
      && len == |pos| <= buf.Length
      && Increasing(pos)
      && (forall i | 0 <= i < len :: pos[i] < |added| && buf[i] == added[pos[i]])
      && (forall k | k in Uncalled() :: k in pos)
      && buf.Length <= Max(Max(initialCap, 1), 2 * peak)
    }

    constructor (cap: nat)
      ensures Valid() && fresh(buf) && added == [] && initialCap == buf.Length == cap && peak == 0
    {
      buf, len := new OnceFunc?[cap](_ => null), 0;
      initialCap, added, pos, peak := cap, [], [], 0;
    }

    /** Calls from outside the lock leave the registry in order. */
    method BetweenOperations()
      requires Valid()
      modifies added
      ensures Valid() && OnlyAdvanced(added)
    {
      OutsideCalls(added);
    }

    /** One round of the compaction: looks at cell i and, if its function is uncalled, moves it to cell j. */
    method KeepIfUncalled(i: nat, j: nat) returns (keep: bool)
      requires j <= i < len == |pos| <= buf.Length && pos[i] < |added| && buf[i] == added[pos[i]]
      requires AllValid(added)
      modifies buf, added
      ensures AllValid(added) && OnlyAdvanced(added)
      ensures keep ==> old(added[pos[i]].phase) != Done && buf[..] == old(buf[..])[j := old(buf[i])]
      ensures !keep ==> added[pos[i]].phase == Done && buf[..] == old(buf[..])
    {
      OutsideCalls(added);
      var fn := buf[i];
      var called := fn.Called();
      assert fn in added;
      if !called && i > j {
        buf[j] := fn;
      }
      keep := !called;
    }

    /** The loop of the compaction. */
    method Scan() returns (j: nat, ghost kept: seq<nat>)
      requires Valid()
      modifies buf, added
      ensures AllValid(added) && OnlyAdvanced(added)
      ensures j == |kept| && Compacting(buf[..], added, pos, kept, len)
      ensures forall k | k in kept :: old(added[k].phase) != Done
      ensures forall h | 0 <= h < len :: pos[h] in kept || added[pos[h]].phase == Done
    {
      j, kept := 0, [];
      for i := 0 to len
        modifies buf, added
        invariant AllValid(added) && OnlyAdvanced(added)
        invariant j == |kept| && Compacting(buf[..], added, pos, kept, i)
        invariant forall k | k in kept :: old(added[k].phase) != Done
        invariant forall h | 0 <= h < i :: pos[h] in kept || added[pos[h]].phase == Done
      {
        j, kept := Round(i, j, kept);
      }
    }

    /** One round of it, with what has been kept so far. */
    method Round(i: nat, j: nat, ghost kept: seq<nat>) returns (next: nat, ghost more: seq<nat>)
      requires AllValid(added) && Increasing(pos) && i < len == |pos| <= buf.Length
      requires j == |kept| && Compacting(buf[..], added, pos, kept, i)
      modifies buf, added
      ensures AllValid(added) && OnlyAdvanced(added)
      ensures next == |more| && Compacting(buf[..], added, pos, more, i + 1)
      ensures more == kept || more == kept + [pos[i]]
      ensures if more == kept then added[pos[i]].phase == Done else old(added[pos[i]].phase) != Done
    {
      ghost var cells := buf[..];
      assert cells[i] == added[pos[i]];
      var keep := KeepIfUncalled(i, j);
      next, more := j, kept;
      if keep {
        Keep(cells, added, pos, kept, i);
        next, more := j + 1, kept + [pos[i]];
      } else {
        Drop(cells, added, pos, kept, i);
      }
    }

    /** Compacts the buffer in place while functions are being called.  What is dropped has been called, what is
        kept had not been called at the start, and the order stays. */
    method RemoveCanceled() returns (shrunk: bool)
      requires Valid()
      modifies this`len, this`pos, buf, added
      ensures Valid() && OnlyAdvanced(added)
      ensures forall k | k in old(pos) && k !in pos :: added[k].phase == Done
      ensures forall k | k in pos :: k in old(pos) && old(added[k].phase) != Done
      ensures shrunk <==> len < old(len)
      ensures len <= old(len) && (len == old(len) ==> pos == old(pos))
    {
      ghost var kept;
      var j;
      j, kept := Scan();
      assert pos[..len] == pos;
      forall k | k in Uncalled()
        ensures k in kept
      {
        assert added[k] in added && k in old(Uncalled());
      }
      assert forall h | 0 <= h < j :: buf[h] == buf[..][h];
      shrunk := j < len;
      len, pos := j, kept;
    }

    /** The buffer is compacted when it is full, and grows only if that frees nothing: all it held was uncalled. */
    method Add() returns (fn: OnceFunc)
      requires Valid()
      modifies this, buf, added
      ensures Valid() && fresh(fn) && fn.phase == Fresh
      ensures added == old(added) + [fn] && OnlyAdvanced(old(added))
      ensures len >= 1 && buf[len - 1] == fn
      ensures peak == Max(old(peak), old(|Uncalled()|)) && (fresh(buf) || buf == old(buf))
      ensures buf != old(buf) ==>
        && buf.Length == Max(1, 2 * old(buf.Length)) && old(len) == old(buf.Length)
        && forall k | k in old(pos) :: old(added[k].phase) != Done
    {
      ghost var uncalled := Uncalled();
      peak := Max(peak, |uncalled|);
      assert Uncalled() == uncalled;
      if len == buf.Length {
        MakeRoom();
      }
      fn := new OnceFunc();
      Append(fn);
    }

    /** A full buffer is compacted; if it is still full, it has held nothing but uncalled functions. */
    method MakeRoom()
      requires Valid() && len == buf.Length && |Uncalled()| <= peak
      modifies this`len, this`pos, buf, added
      ensures Valid() && OnlyAdvanced(added)
      ensures len == buf.Length ==> buf.Length <= peak && forall k | k in old(pos) :: old(added[k].phase) != Done
    {
      ghost var uncalled := Uncalled();
      var shrunk := RemoveCanceled();
      if !shrunk {
        IncreasingCount(pos, uncalled);
      }
    }

    /** Go's append: in place while there is room, else into an array of twice the size. */
    method Append(fn: OnceFunc)
      requires Valid() && fn !in added && fn.Valid()
      requires len == buf.Length ==> buf.Length <= peak
      modifies this`buf, this`len, this`pos, this`added, buf
      ensures Valid() && added == old(added) + [fn] && len == old(len) + 1 && buf[len - 1] == fn
      ensures buf == old(buf) ||
              (fresh(buf) && buf.Length == Max(1, 2 * old(buf.Length)) && old(len) == old(buf.Length))
    {
      if len == buf.Length {
        Grow();
      }
      ghost var next := |added|;
      buf[len] := fn;
      len, pos, added := len + 1, pos + [next], added + [fn];
      assert forall k | k in Uncalled() && k != next :: k in old(Uncalled());
    }

    method Grow()
      requires Valid() && len == buf.Length <= peak
      modifies this`buf
      ensures Valid() && fresh(buf) && buf.Length == Max(1, 2 * old(buf.Length))
    {
      var larger := new OnceFunc?[Max(1, 2 * buf.Length)](_ => null);
      for i := 0 to len
        modifies larger
        invariant forall h | 0 <= h < i :: larger[h] == buf[h]
      {
        larger[i] := buf[i];
      }
      buf := larger;
    }

    /** Runs what is left, however many calls come in between; afterwards every function ever added has run, and
        run once. */
    method CallAll()
      requires Valid()
      modifies this`len, this`pos, added
      ensures Valid() && len == 0 && OnlyAdvanced(added)
      ensures forall f | f in added :: f.phase == Done && f.runs == 1
    {
      for i := 0 to len
        modifies added
        invariant AllValid(added) && OnlyAdvanced(added)
        invariant forall h | 0 <= h < i :: added[pos[h]].phase == Done
        invariant forall k | 0 <= k < |added| && k !in pos :: added[k].phase == Done
      {
        OutsideCalls(added);
        buf[i].Call();
      }
      len, pos := 0, [];
    }
  }
}
