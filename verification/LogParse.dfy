/** The log parser as it runs: it builds log items line by line, then sets their relative times in place. */
module LogParse {
  import opened Etcd
  import opened Strings
  import opened LogMatching
  import opened LogOrder
  import opened LogText
  import LogEq

  /** The items of a log with the times that the clock gives their stamps. */
  function Timed(items: seq<Item>, clock: seq<int> -> int): seq<Entry> {
    seq(|items|, k requires 0 <= k < |items| =>
      Entry(clock(items[k].stamp), items[k].msg,
            if k == 0 then 0 else clock(items[k].stamp) - clock(items[k - 1].stamp)))
  }

  function SumOfRelatives(log: seq<Entry>): int {
    if log == [] then 0 else SumOfRelatives(log[..|log| - 1]) + log[|log| - 1].relative
  }

  lemma {:induction false} RelativesTelescope(log: seq<Entry>)
    requires RelativesOfTimes(log)
    ensures SumOfRelatives(log) == Span(log)
  {
    if |log| > 1 {
      RelativesTelescope(log[..|log| - 1]);
    }
  }

  /** Relative times add up to the time between the first item and the last, so the drift that the comparison
      tolerates is a drift of the spans. */
  lemma ParsedRelatives(log: string, clock: seq<int> -> int)
    ensures var parsed := Timed(Parse(log), clock); RelativesOfTimes(parsed) && SumOfRelatives(parsed) == Span(parsed)
  {
    RelativesTelescope(Timed(Parse(log), clock));
  }

  method ReadTime(s: string) returns (time: Option<seq<int>>)
    requires |s| >= STAMP_LEN
    ensures time == LogText.ParseTime(s)
  {
    var fields: seq<int> := [];
    var start := 0;
    for k := 0 to FIELDS
      invariant |fields| == k && (k < FIELDS ==> start == STARTS[k])
      invariant forall i | 0 <= i < k :: Field(s, i) == Some(fields[i])
    {
      var end := start + WIDES[k];
      match Atoi(s[start..end]) {
        case None =>
          assert Field(s, k).None?;
          return None;
        case Some(n) =>
          fields := fields + [n];
      }
      start := end + 1;
    }
    FieldsGiveTime(s, fields);
    return Some(fields);
  }

  method ReadItem(line: string, clock: seq<int> -> int) returns (item: Option<LogEq.LogItem>)
    ensures item.Some? <==> ParseItem(line).Some?
    ensures item.Some? ==> fresh(item.value) && Holds(item.value, ParseItem(line).value, clock)
  {
    if |line| < STAMP_LEN {
      return None;
    }
    var time := ReadTime(line[..STAMP_LEN]);
    if time.None? {
      return None;
    }
    var made := new LogEq.LogItem(clock(time.value), TrimLeft(line[STAMP_LEN..], GAP), 0);
    return Some(made);
  }

  /** An object for an item whose relative time has not been set. */
  predicate Holds(object_: LogEq.LogItem, item: Item, clock: seq<int> -> int)
    reads object_
  {
    object_.time == clock(item.stamp) && object_.msg == item.msg && object_.relative == 0
  }

  predicate HoldAll(items: seq<LogEq.LogItem>, parsed: seq<Item>, clock: seq<int> -> int)
    reads set x | x in items
  {
    |items| == |parsed| && forall k | 0 <= k < |items| :: Holds(items[k], parsed[k], clock)
  }

  method ParseLines(lines: seq<string>, clock: seq<int> -> int) returns (items: seq<LogEq.LogItem>)
    ensures LogEq.DistinctItems(items) && (forall x | x in items :: fresh(x))
    ensures HoldAll(items, AbsorbAll([], lines), clock)
  {
    items := [];
    for n := 0 to |lines|
      invariant LogEq.DistinctItems(items) && (forall x | x in items :: fresh(x))
      invariant HoldAll(items, AbsorbAll([], lines[..n]), clock)
    {
      assert lines[..n + 1][..n] == lines[..n];
      items := ParseLine(items, lines[n], AbsorbAll([], lines[..n]), clock);
    }
    assert lines[..|lines|] == lines;
  }

  method ParseLine(items: seq<LogEq.LogItem>, text: string, ghost parsed: seq<Item>, clock: seq<int> -> int)
    returns (r: seq<LogEq.LogItem>)
    requires LogEq.DistinctItems(items) && HoldAll(items, parsed, clock)
    modifies (set x | x in items)`msg
    ensures LogEq.DistinctItems(r) && forall x | x in r :: x in items || fresh(x)
    ensures HoldAll(r, Absorb(parsed, text), clock)
  {
    r := items;
    var line := Trim(text, BLANKS);
    var item := ReadItem(line, clock);
    if item.Some? {
      r := items + [item.value];
    } else if |items| > 0 {
      var last := items[|items| - 1];
      assert last in items && forall k | 0 <= k < |items| - 1 :: items[k] != last;
      last.msg := last.msg + "\n" + line;
    }
  }

  method ParseLog(log: string, clock: seq<int> -> int) returns (items: seq<LogEq.LogItem>)
    ensures LogEq.DistinctItems(items) && (forall x | x in items :: fresh(x))
    ensures LogEq.Values(items) == Timed(Parse(log), clock)
    ensures |items| == |Parse(log)|
    ensures forall k | 0 <= k < |items| ::
      items[k].msg == Parse(log)[k].msg && items[k].time == clock(Parse(log)[k].stamp)
  {
    items := ParseLines(Split(Trim(log, WHITE), '\n'), clock);
    SetRelatives(items, Parse(log), clock);
  }

  method SetRelatives(items: seq<LogEq.LogItem>, ghost parsed: seq<Item>, clock: seq<int> -> int)
    requires LogEq.DistinctItems(items) && HoldAll(items, parsed, clock)
    modifies (set x | x in items)`relative
    ensures LogEq.Values(items) == Timed(parsed, clock)
  {
    if |items| > 1 {
      for i := 1 to |items|
        invariant forall k | 0 <= k < |items| :: items[k].relative == Gap(items, if k < i then k else 0)
      {
        assert items[i] in items && forall k | 0 <= k < |items| && k != i :: items[k] != items[i];
        items[i].relative := items[i].time - items[i - 1].time;
      }
    }
    GapsAreRelatives(items, parsed, clock);
  }

  function Gap(items: seq<LogEq.LogItem>, k: nat): int
    requires k < |items|
  {
    if k == 0 then 0 else items[k].time - items[k - 1].time
  }

  lemma GapsAreRelatives(items: seq<LogEq.LogItem>, parsed: seq<Item>, clock: seq<int> -> int)
    requires |items| == |parsed| && forall k | 0 <= k < |items| ::
      items[k].time == clock(parsed[k].stamp) && items[k].msg == parsed[k].msg && items[k].relative == Gap(items, k)
    ensures LogEq.Values(items) == Timed(parsed, clock)
  {
    var values, timed := LogEq.Values(items), Timed(parsed, clock);
    assert |values| == |timed|;
    forall k | 0 <= k < |values|
      ensures values[k] == timed[k]
    {
      assert values[k] == items[k].Value();
      if k > 0 {
        assert items[k - 1].time == clock(parsed[k - 1].stamp);
      }
    }
    assert values == timed;
  }

  /** Two texts are equal exactly when the comparison accepts what they parse to. */
  method EqLog(actual: string, expected: string, threshold: int, clock: seq<int> -> int)
    returns (errs: seq<LogEq.Mismatch>)
    ensures errs == [] <==> Accepted(Timed(Parse(actual), clock), Timed(Parse(expected), clock), threshold)
  {
    var a := ParseLog(actual, clock);
    var e := ParseLog(expected, clock);
    errs := LogEq.Eq(a, e, threshold);
  }
}
