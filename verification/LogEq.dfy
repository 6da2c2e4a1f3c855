/** The tolerant log comparison as it runs: on shared log items, swapping messages in place. */
module LogEq {
  import opened Etcd
  import opened LogMatching

  class LogItem {
    const time: int
    var msg: string
    var relative: int

    constructor (time: int, msg: string, relative: int)
      ensures this.time == time && this.msg == msg && this.relative == relative
    {
      this.time, this.msg, this.relative := time, msg, relative;
    }

    function Value(): Entry
      reads this
    {
      Entry(time, msg, relative)
    }

    /** An item equals itself, whatever the threshold. */
    predicate Eq(that: LogItem, threshold: int)
      reads this, that
    {
      this == that || (msg == that.msg && Abs(relative - that.relative) <= threshold)
    }

    method SwapMsg(that: LogItem)
      modifies this`msg, that`msg
      ensures msg == old(that.msg) && that.msg == old(msg)
    {
      msg, that.msg := that.msg, msg;
    }
  }

  datatype Mismatch = LengthDiffers(actual: nat, expected: nat) | ItemDiffers(index: nat)

  function Values(items: seq<LogItem>): (r: seq<Entry>)
    reads set x | x in items
    ensures |r| == |items| && forall i | 0 <= i < |items| :: r[i] == items[i].Value()
  {
    if items == [] then [] else [items[0].Value()] + Values(items[1..])
  }

  predicate DistinctItems(items: seq<LogItem>) {
    forall i, j | 0 <= i < j < |items| :: items[i] != items[j]
  }

  function ItemErrors(indices: seq<nat>): seq<Mismatch> {
    seq(|indices|, k requires 0 <= k < |indices| => ItemDiffers(indices[k]))
  }

  /** Items that hold a log's entries with two messages swapped. */
  lemma SwappedValues(items: seq<LogItem>, before: seq<Entry>, i: nat, j: nat)
    requires i < j < |items| == |before|
    requires items[i].Value() == before[i].(msg := before[j].msg)
    requires items[j].Value() == before[j].(msg := before[i].msg)
    requires forall k | 0 <= k < |items| && k != i && k != j :: items[k].Value() == before[k]
    ensures Values(items) == LogMatching.SwapMsg(before, i, j)
  {
  }

  /** The inner loop: fetches the message of the first acceptable place inside the window, if there is one. */
  method FetchNear(item: LogItem, expected: seq<LogItem>, i: nat, threshold: int) returns (found: Option<nat>)
    requires DistinctItems(expected) && i < |expected| && item !in expected
    modifies (set x | x in expected)`msg
    ensures found == FindNear(item.Value(), old(Values(expected)), i, i + 1, threshold)
    ensures found.None? ==> Values(expected) == old(Values(expected))
    ensures found.Some? ==>
      i < found.value < |expected| && Values(expected) == LogMatching.SwapMsg(old(Values(expected)), i, found.value)
  {
    ghost var a, e := item.Value(), Values(expected);
    var j := i + 1;
    while j < |expected| && expected[j].time - expected[i].time < threshold && !item.Eq(expected[j], threshold)
      invariant i < j <= |expected|
      invariant FindNear(a, e, i, j, threshold) == FindNear(a, e, i, i + 1, threshold)
    {
      j := j + 1;
    }
    if j < |expected| && expected[j].time - expected[i].time < threshold {
      assert e[j] == expected[j].Value() && e[i] == expected[i].Value();
      expected[i].SwapMsg(expected[j]);
      SwappedValues(expected, e, i, j);
      found := Some(j);
    } else {
      found := None;
    }
  }

  /** One round of the outer loop: finds the partner of one actual item and brings its message to place i. */
  method Place(item: LogItem, expected: seq<LogItem>, i: nat, threshold: int) returns (partner: Option<nat>)
    requires DistinctItems(expected) && i < |expected| && (item == expected[i] || item !in expected)
    modifies (set x | x in expected)`msg
    ensures item == expected[i] ==> partner == Some(i) && Values(expected) == old(Values(expected))
    ensures item !in expected ==> partner == Partner(item.Value(), old(Values(expected)), i, threshold)
    ensures partner.Some? ==>
      i <= partner.value < |expected| &&
      Values(expected) == LogMatching.SwapMsg(old(Values(expected)), i, partner.value)
    ensures partner.None? ==> Values(expected) == old(Values(expected))
  {
    ghost var e := Values(expected);
    assert expected[i] in expected && e[i] == expected[i].Value();
    if item.Eq(expected[i], threshold) {
      partner := Some(i);
      assert LogMatching.SwapMsg(e, i, i) == e;
    } else if item.msg != expected[i].msg {
      partner := FetchNear(item, expected, i, threshold);
    } else {
      partner := None;
    }
  }

  predicate Apart(actual: seq<LogItem>, expected: seq<LogItem>) {
    forall x | x in actual :: x !in expected
  }

  /** Compares two logs that were parsed separately, or a log with itself.  No error means acceptance; whatever the
      outcome, the expected messages are left permuted as LogMatching describes.  A log is accepted by itself,
      whatever the threshold. */
  method Eq(actual: seq<LogItem>, expected: seq<LogItem>, threshold: int) returns (errs: seq<Mismatch>)
    requires DistinctItems(expected) && (Apart(actual, expected) || actual == expected)
    modifies (set x | x in expected)`msg
    ensures Values(actual) == old(Values(actual))
    ensures |actual| != |expected| ==>
      errs == [LengthDiffers(|actual|, |expected|)] && Values(expected) == old(Values(expected))
    ensures actual == expected ==> errs == []
    ensures |actual| == |expected| && Apart(actual, expected) ==>
      var done := Compare(old(Values(actual)), old(Values(expected)), threshold);
      errs == ItemErrors(done.errors) && Values(expected) == Moved(old(Values(expected)), done.origin)
  {
    if |actual| != |expected| {
      errs := [LengthDiffers(|actual|, |expected|)];
      return;
    }
    errs := [];
    ghost var a, e := Values(actual), Values(expected);
    ghost var p := Begin(a, e, threshold);
    for i := 0 to |actual|
      invariant Values(actual) == a
      invariant Apart(actual, expected) ==> Tracks(a, e, threshold, p, i, Values(expected), errs)
      invariant actual == expected ==> errs == []
    {
      errs, p := Turn(actual, expected, i, threshold, errs, e, p);
    }
  }

  /** One round, with the error it may add. */
  method Turn(actual: seq<LogItem>, expected: seq<LogItem>, i: nat, threshold: int, errs: seq<Mismatch>,
              ghost e: seq<Entry>, ghost p: Progress) returns (more: seq<Mismatch>, ghost next: Progress)
    requires DistinctItems(expected) && (Apart(actual, expected) || actual == expected)
    requires i < |actual| == |expected| == |e|
    requires Apart(actual, expected) ==> Tracks(Values(actual), e, threshold, p, i, Values(expected), errs)
    modifies (set x | x in expected)`msg
    ensures Values(actual) == old(Values(actual))
    ensures Apart(actual, expected) ==> Tracks(Values(actual), e, threshold, next, i + 1, Values(expected), more)
    ensures actual == expected ==> more == errs
  {
    ghost var a, before := Values(actual), Values(expected);
    var partner := Place(actual[i], expected, i, threshold);
    assert Apart(actual, expected) ==> Values(actual) == a;
    next := p;
    if Apart(actual, expected) {
      next := Round(a, e, threshold, p, i, before, errs, partner, Values(expected));
    }
    more := errs + (if partner.None? then [ItemDiffers(i)] else []);
  }

  /** Before round i: the values and errors are what the comparison on values has come to. */
  ghost predicate Tracks(a: seq<Entry>, e: seq<Entry>, threshold: int, p: Progress, i: nat,
                         current: seq<Entry>, errs: seq<Mismatch>)
    requires |a| == |e|
  {
    && i <= |e| && Fits(p, |e|) && current == Moved(e, p.origin) && errs == ItemErrors(p.errors)
    && Loop(a, e, p, i, threshold) == Compare(a, e, threshold)
  }

  lemma Begin(a: seq<Entry>, e: seq<Entry>, threshold: int) returns (p: Progress)
    requires |a| == |e|
    ensures Tracks(a, e, threshold, p, 0, e, [])
  {
    p := Initial(|e|);
    NothingMoved(e);
  }

  /** One round, in terms of the partner found. */
  lemma Round(a: seq<Entry>, e: seq<Entry>, threshold: int, p: Progress, i: nat, before: seq<Entry>,
              errs: seq<Mismatch>, partner: Option<nat>, after: seq<Entry>) returns (next: Progress)
    requires |a| == |e| && i < |e| && Tracks(a, e, threshold, p, i, before, errs)
    requires partner == Partner(a[i], before, i, threshold)
    requires partner.Some? ==> partner.value < |e| && after == LogMatching.SwapMsg(before, i, partner.value)
    requires partner.None? ==> after == before
    ensures Tracks(a, e, threshold, next, i + 1, after, errs + (if partner.None? then [ItemDiffers(i)] else []))
  {
    next := Step(a, e, p, i, threshold);
    PartnerIsNear(a[i], before, i, threshold);
    if partner.Some? {
      SwapMoves(e, p.origin, i, partner.value);
      assert errs + [] == errs;
    }
  }
}
