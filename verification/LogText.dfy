/** Logs as text: each item starts with a time stamp, and its message may run over several lines. */
module LogText {
  import opened Etcd
  import opened Strings

  // ---- Time stamps

  const WIDES: seq<nat> := [4, 2, 2, 2, 2, 2, 6]
  const STARTS: seq<nat> := [0, 5, 8, 11, 14, 17, 20]
  const FIELDS: nat := 7
  const STAMP_LEN: nat := 26

  /** The k-th number of a time stamp; whatever stands between the numbers is not looked at. */
  function Field(s: string, k: nat): Option<int>
    requires |s| >= STAMP_LEN && k < FIELDS
  {
    Atoi(s[STARTS[k]..STARTS[k] + WIDES[k]])
  }

  function ParseTime(s: string): Option<seq<int>>
    requires |s| >= STAMP_LEN
  {
    if forall k | 0 <= k < FIELDS :: Field(s, k).Some? then
      Some(seq(FIELDS, k requires 0 <= k < FIELDS => Field(s, k).value))
    else None
  }

  /** A number in exactly so many digits. */
  function Pad(n: nat, width: nat): (r: string)
    ensures |r| == width && AllDigits(r)
  {
    if width == 0 then "" else Pad(n / 10, width - 1) + ['0' + (n % 10) as char]
  }

  lemma {:induction false} PadValue(n: nat, width: nat)
    requires n < TenTo(width)
    ensures DigitsValue(Pad(n, width)) == n
  {
    if width > 0 {
      PadValue(n / 10, width - 1);
      assert Pad(n, width)[..width - 1] == Pad(n / 10, width - 1);
    }
  }

  predicate IsStamp(fields: seq<int>) {
    |fields| == FIELDS && forall k | 0 <= k < FIELDS :: 0 <= fields[k] < TenTo(WIDES[k])
  }

  function Stamp(f: seq<int>): (r: string)
    requires IsStamp(f)
    ensures |r| == STAMP_LEN
  {
    Pad(f[0], 4) + "/" + Pad(f[1], 2) + "/" + Pad(f[2], 2) + " " +
    Pad(f[3], 2) + ":" + Pad(f[4], 2) + ":" + Pad(f[5], 2) + "." + Pad(f[6], 6)
  }

  lemma StampField(f: seq<int>, k: nat)
    requires IsStamp(f) && k < FIELDS
    ensures Stamp(f)[STARTS[k]..STARTS[k] + WIDES[k]] == Pad(f[k], WIDES[k])
  {
  }

  lemma StampHasNoNewline(f: seq<int>)
    requires IsStamp(f)
    ensures '\n' !in Stamp(f) && IsDigit(Stamp(f)[0]) && IsDigit(Stamp(f)[STAMP_LEN - 1])
  {
  }

  lemma StampRoundTrip(f: seq<int>)
    requires IsStamp(f)
    ensures ParseTime(Stamp(f)) == Some(f)
  {
    forall k | 0 <= k < FIELDS
      ensures Field(Stamp(f), k) == Some(f[k])
    {
      StampField(f, k);
      AtoiPad(f[k], WIDES[k]);
    }
    FieldsGiveTime(Stamp(f), f);
  }

  lemma FieldsGiveTime(s: string, f: seq<int>)
    requires |s| >= STAMP_LEN && |f| == FIELDS && forall k | 0 <= k < FIELDS :: Field(s, k) == Some(f[k])
    ensures ParseTime(s) == Some(f)
  {
    assert seq(FIELDS, k requires 0 <= k < FIELDS => Field(s, k).value) == f;
  }

  lemma AtoiPad(n: nat, width: nat)
    requires 1 <= width <= 6 && n < TenTo(width)
    ensures Atoi(Pad(n, width)) == Some(n)
  {
    PadValue(n, width);
    TenToBound(width);
    assert IsDigit(Pad(n, width)[0]);
  }

  lemma TenToBound(width: nat)
    requires width <= 6
    ensures TenTo(width) <= 1_000_000
  {
    if width < 6 {
      TenToGrows(width, 6);
    }
    assert TenTo(6) == 1_000_000;
  }

  // ---- Trimming

  function TrimLeft(s: string, cut: string): string {
    if s != "" && s[0] in cut then TrimLeft(s[1..], cut) else s
  }

  function TrimRight(s: string, cut: string): string {
    if s != "" && s[|s| - 1] in cut then TrimRight(s[..|s| - 1], cut) else s
  }

  function Trim(s: string, cut: string): string { TrimRight(TrimLeft(s, cut), cut) }

  const GAP: string := " \t"
  const BLANKS: string := " \r\t"
  const WHITE: string := " \r\n\t"

  // ---- Items

  datatype Item = Item(stamp: seq<int>, msg: string)

  /** The start of an item, if the line is one. */
  function ParseItem(line: string): Option<Item> {
    if |line| < STAMP_LEN then None
    else
      match ParseTime(line[..STAMP_LEN])
      case None => None
      case Some(stamp) => Some(Item(stamp, TrimLeft(line[STAMP_LEN..], GAP)))
  }

  function Continue(item: Item, line: string): Item {
    item.(msg := item.msg + "\n" + line)
  }

  /** A line starts an item or continues the last one; before the first item it is dropped. */
  function Absorb(items: seq<Item>, line: string): seq<Item> {
    var trimmed := Trim(line, BLANKS);
    match ParseItem(trimmed)
    case Some(item) => items + [item]
    case None => if items == [] then [] else items[..|items| - 1] + [Continue(items[|items| - 1], trimmed)]
  }

  function AbsorbAll(items: seq<Item>, lines: seq<string>): seq<Item> {
    if lines == [] then items else Absorb(AbsorbAll(items, lines[..|lines| - 1]), lines[|lines| - 1])
  }

  function Parse(log: string): seq<Item> {
    AbsorbAll([], Split(Trim(log, WHITE), '\n'))
  }

  // ---- Which items a log can hold

  predicate Ends(s: string, cut: string) { s != "" && s[|s| - 1] in cut }

  predicate Begins(s: string, cut: string) { s != "" && s[0] in cut }

  /** A first line has no blanks around it. */
  predicate IsFirst(line: string) { !Begins(line, GAP) && !Ends(line, BLANKS) }

  /** A further line has none either and is no item of its own. */
  predicate IsFurther(line: string) {
    !Begins(line, BLANKS) && !Ends(line, BLANKS) && ParseItem(line).None?
  }

  predicate IsMessage(lines: seq<string>)
    requires |lines| >= 1
  {
    IsFirst(lines[0]) && forall k | 1 <= k < |lines| :: IsFurther(lines[k])
  }

  predicate AreMessages(items: seq<Item>) {
    forall k | 0 <= k < |items| :: IsMessage(Split(items[k].msg, '\n'))
  }

  predicate IsLog(items: seq<Item>) {
    AreMessages(items) && (items != [] ==> !Ends(items[|items| - 1].msg, "\n"))
  }

  predicate HasStamps(items: seq<Item>) {
    forall k | 0 <= k < |items| :: IsStamp(items[k].stamp)
  }

  // ---- Rendering

  function RenderItem(item: Item): string
    requires IsStamp(item.stamp)
  {
    Stamp(item.stamp) + " " + item.msg
  }

  function Render(items: seq<Item>): string
    requires HasStamps(items)
  {
    if items == [] then ""
    else if |items| == 1 then RenderItem(items[0])
    else RenderItem(items[0]) + ['\n'] + Render(items[1..])
  }

  // ---- Trimming facts

  lemma {:induction false} TrimLeftCuts(s: string, cut: string)
    ensures !Begins(TrimLeft(s, cut), cut) && (Ends(TrimLeft(s, cut), cut) ==> Ends(s, cut))
    ensures s != "" && !Ends(s, cut) ==>
      TrimLeft(s, cut) != "" && TrimLeft(s, cut)[|TrimLeft(s, cut)| - 1] == s[|s| - 1]
    ensures forall c | c !in s :: c !in TrimLeft(s, cut)
  {
    if s != "" && s[0] in cut {
      TrimLeftCuts(s[1..], cut);
    }
  }

  lemma {:induction false} TrimRightCuts(s: string, cut: string)
    ensures !Ends(TrimRight(s, cut), cut) && (Begins(TrimRight(s, cut), cut) ==> Begins(s, cut))
    ensures forall c | c !in s :: c !in TrimRight(s, cut)
  {
    if s != "" && s[|s| - 1] in cut {
      TrimRightCuts(s[..|s| - 1], cut);
    }
  }

  lemma TrimCuts(s: string, cut: string)
    ensures !Begins(Trim(s, cut), cut) && !Ends(Trim(s, cut), cut)
    ensures forall c | c !in s :: c !in Trim(s, cut)
  {
    TrimLeftCuts(s, cut);
    TrimRightCuts(TrimLeft(s, cut), cut);
  }

  /** The last character of a text that does not end with a blank stays. */
  lemma TrimKeepsEnd(s: string, cut: string)
    requires s != "" && !Ends(s, cut)
    ensures Trim(s, cut) != "" && Trim(s, cut)[|Trim(s, cut)| - 1] == s[|s| - 1]
  {
    TrimLeftCuts(s, cut);
  }

  lemma {:induction false} TrimRightAppends(s: string, t: string, cut: string)
    requires TrimRight(t, cut) != ""
    ensures TrimRight(s + t, cut) == s + TrimRight(t, cut)
  {
    if Ends(t, cut) {
      TrimRightAppends(s, t[..|t| - 1], cut);
      assert (s + t)[..|s + t| - 1] == s + t[..|t| - 1];
    }
  }

  // ---- Splitting facts

  lemma {:induction false} SplitPrefixed(p: string, s: string, sep: char)
    requires sep !in p
    ensures Split(p + s, sep) == [p + Split(s, sep)[0]] + Split(s, sep)[1..]
  {
    var rest := Split(s, sep);
    if p == "" {
      assert p + s == s && p + rest[0] == rest[0];
    } else {
      SplitPrefixed(p[1..], s, sep);
      var tail := [p[1..] + rest[0]] + rest[1..];
      assert (p + s)[1..] == p[1..] + s && (p + s)[0] == p[0];
      assert tail[1..] == rest[1..];
      assert [p[0]] + (p[1..] + rest[0]) == p + rest[0];
    }
  }

  /** A text that does not end at a separator ends with its last line. */
  lemma {:induction false} LastLine(s: string, sep: char)
    requires s != "" && s[|s| - 1] != sep
    ensures var last := Split(s, sep)[|Split(s, sep)| - 1]; last != "" && last[|last| - 1] == s[|s| - 1]
  {
    var rest := Split(s[1..], sep);
    if |s| == 1 {
      assert rest == [""];
    } else {
      LastLine(s[1..], sep);
      var r := if s[0] == sep then [""] + rest else [[s[0]] + rest[0]] + rest[1..];
      assert |r| >= 2 ==> r[|r| - 1] == rest[|rest| - 1] || |rest| == 1;
    }
  }

  lemma {:induction false} AbsorbAppended(items: seq<Item>, a: seq<string>, b: seq<string>)
    ensures AbsorbAll(items, a + b) == AbsorbAll(AbsorbAll(items, a), b)
  {
    if b == [] {
      assert a + b == a;
    } else {
      AbsorbAppended(items, a, b[..|b| - 1]);
      assert (a + b)[..|a + b| - 1] == a + b[..|b| - 1];
    }
  }

  // ---- Parsing what was rendered

  lemma TrimTrimmed(s: string, cut: string)
    requires !Begins(s, cut) && !Ends(s, cut)
    ensures Trim(s, cut) == s
  {
  }

  /** The first line of a rendered item. */
  lemma AbsorbFirst(items: seq<Item>, stamp: seq<int>, line: string)
    requires IsStamp(stamp) && IsFirst(line)
    ensures Absorb(items, Stamp(stamp) + (" " + line)) == items + [Item(stamp, line)]
  {
    var gap := if line == "" then "" else " " + line;
    TrimFirst(Stamp(stamp), line);
    StampHasNoNewline(stamp);
    StampLine(stamp, gap);
    GapIsCut(line);
    assert Stamp(stamp) + "" == Stamp(stamp);
  }

  lemma TrimFirst(s: string, line: string)
    requires s != "" && !Begins(s, BLANKS) && !Ends(s, BLANKS) && !Ends(line, BLANKS)
    ensures Trim(s + (" " + line), BLANKS) == if line == "" then s else s + (" " + line)
  {
    var text := s + (" " + line);
    assert text[0] == s[0] && TrimLeft(text, BLANKS) == text && TrimRight(s, BLANKS) == s;
    assert line != "" ==> text[|text| - 1] == line[|line| - 1];
    assert line == "" ==> text[..|text| - 1] == s && text[|text| - 1] == ' ';
  }

  lemma GapIsCut(line: string)
    requires !Begins(line, GAP)
    ensures TrimLeft(" " + line, GAP) == line && TrimLeft("", GAP) == ""
  {
    assert (" " + line)[1..] == line;
  }

  /** A rendered item without the blank that an empty message leaves at its end. */
  lemma AbsorbBareStamp(items: seq<Item>, stamp: seq<int>)
    requires IsStamp(stamp)
    ensures Absorb(items, Stamp(stamp)) == items + [Item(stamp, "")]
  {
    StampHasNoNewline(stamp);
    TrimTrimmed(Stamp(stamp), BLANKS);
    StampLine(stamp, "");
    assert Stamp(stamp) + "" == Stamp(stamp);
  }

  lemma StampLine(stamp: seq<int>, rest: string)
    requires IsStamp(stamp)
    ensures ParseItem(Stamp(stamp) + rest) == Some(Item(stamp, TrimLeft(rest, GAP)))
  {
    var line := Stamp(stamp) + rest;
    StampRoundTrip(stamp);
    assert line[..STAMP_LEN] == Stamp(stamp) && line[STAMP_LEN..] == rest;
  }

  lemma {:induction false} AbsorbFurther(items: seq<Item>, stamp: seq<int>, lines: seq<string>)
    requires |lines| >= 1 && forall k | 1 <= k < |lines| :: IsFurther(lines[k])
    ensures AbsorbAll(items + [Item(stamp, lines[0])], lines[1..]) == items + [Item(stamp, Join(lines, '\n'))]
  {
    if |lines| > 1 {
      var init, last := lines[..|lines| - 1], lines[|lines| - 1];
      AbsorbFurther(items, stamp, init);
      assert lines[1..][..|lines| - 2] == init[1..] && init + [last] == lines;
      AbsorbNext(items, Item(stamp, Join(init, '\n')), last);
      JoinLast(init, last, '\n');
      assert Join(init, '\n') + "\n" + last == Join(init, '\n') + ['\n'] + last;
    } else {
      assert Join(lines, '\n') == lines[0];
    }
  }

  lemma AbsorbNext(items: seq<Item>, item: Item, line: string)
    requires IsFurther(line)
    ensures Absorb(items + [item], line) == items + [Continue(item, line)]
  {
    TrimTrimmed(line, BLANKS);
    assert (items + [item])[..|items|] == items;
  }

  lemma {:induction false} JoinLast(parts: seq<string>, last: string, sep: char)
    requires |parts| >= 1
    ensures Join(parts + [last], sep) == Join(parts, sep) + [sep] + last
  {
    if |parts| == 1 {
      assert (parts + [last])[1..] == [last];
    } else {
      JoinLast(parts[1..], last, sep);
      assert (parts + [last])[1..] == parts[1..] + [last];
    }
  }

  lemma AbsorbRendered(items: seq<Item>, item: Item)
    requires IsStamp(item.stamp) && IsMessage(Split(item.msg, '\n'))
    ensures AbsorbAll(items, Split(RenderItem(item), '\n')) == items + [item]
  {
    var lines, head := Split(item.msg, '\n'), Stamp(item.stamp) + " ";
    StampHasNoNewline(item.stamp);
    SplitPrefixed(head, item.msg, '\n');
    assert head + lines[0] == Stamp(item.stamp) + (" " + lines[0]);
    AbsorbAppended(items, [head + lines[0]], lines[1..]);
    AbsorbFirst(items, item.stamp, lines[0]);
    AbsorbOne(items, head + lines[0]);
    AbsorbFurther(items, item.stamp, lines);
    JoinSplit(item.msg, '\n');
  }

  lemma AbsorbOne(items: seq<Item>, line: string)
    ensures AbsorbAll(items, [line]) == Absorb(items, line)
  {
    assert [line][..0] == [];
  }

  /** What is left of a rendered log when it has been trimmed. */
  function Bare(items: seq<Item>): (r: string)
    requires HasStamps(items) && items != []
  {
    if |items| > 1 then RenderItem(items[0]) + ['\n'] + Bare(items[1..])
    else if items[0].msg == "" then Stamp(items[0].stamp)
    else RenderItem(items[0])
  }

  lemma {:induction false} TrimRendered(items: seq<Item>)
    requires HasStamps(items) && IsLog(items) && items != []
    ensures TrimRight(Render(items), WHITE) == Bare(items) && Bare(items) != ""
  {
    if |items| > 1 {
      TrimRendered(items[1..]);
      TrimRightAppends(RenderItem(items[0]) + ['\n'], Render(items[1..]), WHITE);
    } else {
      TrimLastItem(items[0]);
    }
  }

  lemma TrimLastItem(item: Item)
    requires IsStamp(item.stamp) && IsMessage(Split(item.msg, '\n')) && !Ends(item.msg, "\n")
    ensures TrimRight(RenderItem(item), WHITE) == if item.msg == "" then Stamp(item.stamp) else RenderItem(item)
  {
    var text := RenderItem(item);
    StampHasNoNewline(item.stamp);
    if item.msg == "" {
      assert text[..STAMP_LEN] == Stamp(item.stamp) && !Ends(Stamp(item.stamp), WHITE);
    } else {
      EndOfMessage(item.msg);
      assert text[|text| - 1] == item.msg[|item.msg| - 1];
    }
  }

  lemma RenderedBegins(items: seq<Item>)
    requires HasStamps(items) && items != []
    ensures TrimLeft(Render(items), WHITE) == Render(items)
  {
    StampHasNoNewline(items[0].stamp);
    assert Render(items)[0] == Stamp(items[0].stamp)[0];
  }

  lemma EndOfMessage(msg: string)
    requires msg != "" && !Ends(msg, "\n") && IsMessage(Split(msg, '\n'))
    ensures !Ends(msg, WHITE)
  {
    LastLine(msg, '\n');
    var lines := Split(msg, '\n');
    assert !Ends(lines[|lines| - 1], BLANKS);
  }

  lemma {:induction false} ParseBare(before: seq<Item>, items: seq<Item>)
    requires HasStamps(items) && AreMessages(items) && items != []
    ensures AbsorbAll(before, Split(Bare(items), '\n')) == before + items
    decreases |items|
  {
    if |items| > 1 {
      ParseBare(before + [items[0]], items[1..]);
      FirstAndRest(before, items);
      ParseBareFirst(before, items, before + items);
    } else {
      ParseBareItem(before, items[0]);
      assert items == [items[0]];
    }
  }

  lemma FirstAndRest(before: seq<Item>, items: seq<Item>)
    requires items != []
    ensures before + [items[0]] + items[1..] == before + items
  {
  }

  lemma ParseBareFirst(before: seq<Item>, items: seq<Item>, after: seq<Item>)
    requires HasStamps(items) && |items| > 1 && IsMessage(Split(items[0].msg, '\n'))
    requires AbsorbAll(before + [items[0]], Split(Bare(items[1..]), '\n')) == after
    ensures AbsorbAll(before, Split(Bare(items), '\n')) == after
  {
    AbsorbRendered(before, items[0]);
    AbsorbJoined(before, RenderItem(items[0]), Bare(items[1..]), before + [items[0]], after);
  }

  lemma AbsorbJoined(before: seq<Item>, text: string, rest: string, middle: seq<Item>, after: seq<Item>)
    requires AbsorbAll(before, Split(text, '\n')) == middle && AbsorbAll(middle, Split(rest, '\n')) == after
    ensures AbsorbAll(before, Split(text + ['\n'] + rest, '\n')) == after
  {
    SplitAtSep(text, '\n', rest);
    AbsorbAppended(before, Split(text, '\n'), Split(rest, '\n'));
  }

  lemma ParseBareItem(before: seq<Item>, item: Item)
    requires IsStamp(item.stamp) && IsMessage(Split(item.msg, '\n'))
    ensures AbsorbAll(before, Split(Bare([item]), '\n')) == before + [item]
  {
    if item.msg == "" {
      StampHasNoNewline(item.stamp);
      SplitPlain(Stamp(item.stamp), '\n');
      AbsorbBareStamp(before, item.stamp);
      AbsorbOne(before, Stamp(item.stamp));
    } else {
      AbsorbRendered(before, item);
    }
  }

  lemma RoundTrip(items: seq<Item>)
    requires HasStamps(items) && IsLog(items)
    ensures Parse(Render(items)) == items
  {
    if items == [] {
      assert Split("", '\n') == [""];
      AbsorbOne([], "");
    } else {
      RenderedBegins(items);
      TrimRendered(items);
      ParseBare([], items);
      assert [] + items == items;
    }
  }

  // ---- What any text parses to

  lemma AbsorbKeepsMessages(items: seq<Item>, line: string)
    requires AreMessages(items) && '\n' !in line
    ensures AreMessages(Absorb(items, line))
  {
    var trimmed := Trim(line, BLANKS);
    TrimCuts(line, BLANKS);
    match ParseItem(trimmed)
    case Some(item) =>
      StartIsMessage(trimmed);
    case None =>
      if items != [] {
        FurtherIsMessage(items[|items| - 1], trimmed);
      }
  }

  lemma StartIsMessage(line: string)
    requires '\n' !in line && !Ends(line, BLANKS) && ParseItem(line).Some?
    ensures var msg := ParseItem(line).value.msg; '\n' !in msg && IsMessage(Split(msg, '\n'))
  {
    var rest := line[STAMP_LEN..];
    TrimLeftCuts(rest, GAP);
    LeftKeepsEnd(rest, GAP);
    SplitPlain(TrimLeft(rest, GAP), '\n');
  }

  lemma {:induction false} LeftKeepsEnd(s: string, cut: string)
    ensures TrimLeft(s, cut) != "" ==> TrimLeft(s, cut)[|TrimLeft(s, cut)| - 1] == s[|s| - 1]
  {
    if s != "" && s[0] in cut {
      LeftKeepsEnd(s[1..], cut);
    }
  }

  lemma FurtherIsMessage(item: Item, line: string)
    requires IsMessage(Split(item.msg, '\n')) && IsFurther(line) && '\n' !in line
    ensures IsMessage(Split(Continue(item, line).msg, '\n'))
  {
    SplitAtSep(item.msg, '\n', line);
    SplitPlain(line, '\n');
    assert item.msg + "\n" + line == item.msg + ['\n'] + line;
  }

  lemma {:induction false} LinesGiveMessages(lines: seq<string>)
    requires forall k | 0 <= k < |lines| :: '\n' !in lines[k]
    ensures AreMessages(AbsorbAll([], lines))
  {
    if lines != [] {
      LinesGiveMessages(lines[..|lines| - 1]);
      AbsorbKeepsMessages(AbsorbAll([], lines[..|lines| - 1]), lines[|lines| - 1]);
    }
  }

  /** The last line leaves the last message without a newline at its end. */
  lemma LastMessageIsClosed(items: seq<Item>, line: string)
    requires '\n' !in line && line != "" && !Ends(line, BLANKS)
    ensures var r := Absorb(items, line); r != [] ==> !Ends(r[|r| - 1].msg, "\n")
  {
    var trimmed := Trim(line, BLANKS);
    TrimCuts(line, BLANKS);
    TrimKeepsEnd(line, BLANKS);
    if ParseItem(trimmed).Some? {
      StartIsMessage(trimmed);
    }
  }

  /** Whatever the text, its items are such as a log can hold. */
  lemma ParsedIsLog(log: string)
    ensures IsLog(Parse(log))
  {
    var text := Trim(log, WHITE);
    var lines := Split(text, '\n');
    SplitHasNoSep(text, '\n');
    LinesGiveMessages(lines);
    TrimCuts(log, WHITE);
    if text == "" {
      AbsorbOne([], "");
    } else {
      LastLine(text, '\n');
      LastMessageIsClosed(AbsorbAll([], lines[..|lines| - 1]), lines[|lines| - 1]);
    }
  }

  /** Rendering and parsing give back the same items exactly when their messages are such as a log can hold. */
  lemma RoundTripIff(items: seq<Item>)
    requires HasStamps(items)
    ensures Parse(Render(items)) == items <==> IsLog(items)
  {
    if IsLog(items) {
      RoundTrip(items);
    } else {
      ParsedIsLog(Render(items));
    }
  }

  /** Writing a parsed text out again loses nothing more, unless a number of a time stamp carried a sign. */
  lemma ParsedTextIsStable(log: string)
    requires HasStamps(Parse(log))
    ensures Parse(Render(Parse(log))) == Parse(log)
  {
    ParsedIsLog(log);
    RoundTrip(Parse(log));
  }

  // ---- Which lines are items

  /** The line is long enough for a time stamp, and holds a number at each of its seven places. */
  predicate LooksStamped(line: string) {
    && |line| >= 26
    && HoldsNumber(line[0..4]) && HoldsNumber(line[5..7]) && HoldsNumber(line[8..10])
    && HoldsNumber(line[11..13]) && HoldsNumber(line[14..16]) && HoldsNumber(line[17..19])
    && HoldsNumber(line[20..26])
  }

  /** A line starts an item if and only if it looks stamped: one place without a number is enough for it not to. */
  lemma StartsItemIff(line: string)
    ensures ParseItem(line).Some? <==> LooksStamped(line)
  {
    if |line| >= STAMP_LEN {
      PlacesOf(line);
      forall k | 0 <= k < FIELDS
        ensures Field(line[..STAMP_LEN], k).Some? <==> HoldsNumber(line[STARTS[k]..STARTS[k] + WIDES[k]])
      {
        assert line[..STAMP_LEN][STARTS[k]..STARTS[k] + WIDES[k]] == line[STARTS[k]..STARTS[k] + WIDES[k]];
        AtoiReadsIff(line[STARTS[k]..STARTS[k] + WIDES[k]]);
      }
    }
  }

  lemma PlacesOf(line: string)
    requires |line| >= STAMP_LEN
    ensures LooksStamped(line) <==>
            forall k | 0 <= k < FIELDS :: HoldsNumber(line[STARTS[k]..STARTS[k] + WIDES[k]])
  {
    if forall k | 0 <= k < FIELDS :: HoldsNumber(line[STARTS[k]..STARTS[k] + WIDES[k]]) {
      assert HoldsNumber(line[STARTS[0]..STARTS[0] + WIDES[0]]) && HoldsNumber(line[STARTS[1]..STARTS[1] + WIDES[1]]);
      assert HoldsNumber(line[STARTS[2]..STARTS[2] + WIDES[2]]) && HoldsNumber(line[STARTS[3]..STARTS[3] + WIDES[3]]);
      assert HoldsNumber(line[STARTS[4]..STARTS[4] + WIDES[4]]) && HoldsNumber(line[STARTS[5]..STARTS[5] + WIDES[5]]);
      assert HoldsNumber(line[STARTS[6]..STARTS[6] + WIDES[6]]);
    }
  }

  predicate IsLetter(c: char) { 'a' <= c <= 'z' || 'A' <= c <= 'Z' }

  /** Such as a line of a stack trace. */
  predicate IsTraceLine(line: string) {
    line != "" && IsLetter(line[0]) && line[|line| - 1] !in " \r\t" && '\n' !in line
  }

  lemma TraceLineIsFurther(line: string)
    requires IsTraceLine(line)
    ensures IsFurther(line) && !LooksStamped(line)
  {
    if |line| >= 26 {
      var head := line[0..4];
      assert head[0] == line[0] && !('0' <= head[0] <= '9') && head[0] != '+' && head[0] != '-';
      assert !HoldsNumber(head);
    }
    StartsItemIff(line);
  }

  /** A stamped line followed by lines that begin with a letter is one item, with all of them in its message. */
  lemma TraceIsOneItem(stamp: seq<int>, first: string, trace: seq<string>)
    requires IsStamp(stamp) && IsTraceLine(first) && forall k | 0 <= k < |trace| :: IsTraceLine(trace[k])
    ensures var msg := Join([first] + trace, '\n'); Parse(Stamp(stamp) + " " + msg) == [Item(stamp, msg)]
  {
    var msg := Join([first] + trace, '\n');
    TraceIsMessage(first, trace);
    OneItem(Item(stamp, msg));
  }

  lemma TraceIsMessage(first: string, trace: seq<string>)
    requires IsTraceLine(first) && forall k | 0 <= k < |trace| :: IsTraceLine(trace[k])
    ensures var msg := Join([first] + trace, '\n'); IsMessage(Split(msg, '\n')) && !Ends(msg, "\n")
  {
    var lines := [first] + trace;
    forall k | 0 <= k < |lines|
      ensures '\n' !in lines[k] && lines[k] != ""
    {
      assert k > 0 ==> lines[k] == trace[k - 1];
    }
    SplitJoin(lines, '\n');
    TraceLines(first, trace);
    TraceEnds(lines);
  }

  lemma TraceLines(first: string, trace: seq<string>)
    requires IsTraceLine(first) && forall k | 0 <= k < |trace| :: IsTraceLine(trace[k])
    ensures IsMessage([first] + trace)
  {
    TraceLineIsFirst(first);
    TraceIsFurther(trace);
    assert forall k | 1 <= k < |[first] + trace| :: ([first] + trace)[k] == trace[k - 1];
  }

  lemma TraceEnds(lines: seq<string>)
    requires |lines| >= 1 && lines[|lines| - 1] != "" && '\n' !in lines[|lines| - 1]
    ensures !Ends(Join(lines, '\n'), "\n")
  {
    JoinEnds(lines, '\n');
  }

  lemma TraceLineIsFirst(line: string)
    requires IsTraceLine(line)
    ensures IsFirst(line)
  {
  }

  lemma TraceIsFurther(trace: seq<string>)
    requires forall k | 0 <= k < |trace| :: IsTraceLine(trace[k])
    ensures forall k | 0 <= k < |trace| :: IsFurther(trace[k])
  {
    forall k | 0 <= k < |trace|
      ensures IsFurther(trace[k])
    {
      TraceLineIsFurther(trace[k]);
    }
  }

  lemma OneItem(item: Item)
    requires IsStamp(item.stamp) && IsMessage(Split(item.msg, '\n')) && !Ends(item.msg, "\n")
    ensures Parse(Stamp(item.stamp) + " " + item.msg) == [item]
  {
    RoundTrip([item]);
  }

  lemma {:induction false} SplitJoin(lines: seq<string>, sep: char)
    requires |lines| >= 1 && forall k | 0 <= k < |lines| :: sep !in lines[k]
    ensures Split(Join(lines, sep), sep) == lines
  {
    SplitPlain(lines[0], sep);
    if |lines| == 1 {
      assert lines == [lines[0]];
    } else {
      SplitJoin(lines[1..], sep);
      SplitAtSep(lines[0], sep, Join(lines[1..], sep));
      assert [lines[0]] + lines[1..] == lines;
    }
  }

  lemma {:induction false} JoinEnds(lines: seq<string>, sep: char)
    requires |lines| >= 1 && lines[|lines| - 1] != ""
    ensures var text, last := Join(lines, sep), lines[|lines| - 1];
            text != "" && text[|text| - 1] == last[|last| - 1]
  {
    if |lines| > 1 {
      JoinEnds(lines[1..], sep);
    }
  }

  /** What stands between the numbers of a stamp. */
  lemma StampSeparators(f: seq<int>)
    requires IsStamp(f)
    ensures var s := Stamp(f);
            s[4] == '/' && s[7] == '/' && s[10] == ' ' && s[13] == ':' && s[16] == ':' && s[19] == '.'
  {
  }

  /** Blanks and tabs behind the stamp are dropped. */
  lemma GapIsDropped(head: string, c: char, rest: string)
    requires |head| == 26 && LooksStamped(head) && (c == ' ' || c == '\t')
    ensures ParseItem(head + ([c] + rest)) == ParseItem(head + rest)
  {
    StampDecides(head, rest);
    StampDecides(head, [c] + rest);
    TrimLeftDrops(c, rest, GAP);
  }

  /** From the first other character on, everything is message. */
  lemma MessageIsRest(head: string, rest: string)
    requires |head| == 26 && LooksStamped(head) && (rest == "" || (rest[0] != ' ' && rest[0] != '\t'))
    ensures ParseItem(head).Some? && ParseItem(head + rest) == Some(Item(ParseItem(head).value.stamp, rest))
  {
    StampDecides(head, rest);
  }

  lemma StampDecides(head: string, rest: string)
    requires |head| == 26 && LooksStamped(head)
    ensures ParseItem(head).Some?
    ensures ParseItem(head + rest) == Some(Item(ParseItem(head).value.stamp, TrimLeft(rest, GAP)))
  {
    StartsItemIff(head);
    assert (head + rest)[..26] == head == head[..26] && (head + rest)[26..] == rest;
  }

  // ---- What does not matter

  /** Lines before the first stamped one are dropped. */
  lemma {:induction false} LeadingLinesAreDropped(leading: seq<string>, lines: seq<string>)
    requires forall k | 0 <= k < |leading| :: !LooksStamped(Trim(leading[k], " \r\t"))
    ensures AbsorbAll([], leading + lines) == AbsorbAll([], lines)
  {
    AbsorbAppended([], leading, lines);
    NothingBefore(leading);
  }

  lemma {:induction false} NothingBefore(leading: seq<string>)
    requires forall k | 0 <= k < |leading| :: !LooksStamped(Trim(leading[k], " \r\t"))
    ensures AbsorbAll([], leading) == []
  {
    if leading != [] {
      var last := leading[|leading| - 1];
      NothingBefore(leading[..|leading| - 1]);
      StartsItemIff(Trim(last, " \r\t"));
    }
  }

  lemma {:induction false} TrimLeftDrops(c: char, s: string, cut: string)
    requires c in cut
    ensures TrimLeft([c] + s, cut) == TrimLeft(s, cut)
  {
    assert ([c] + s)[1..] == s;
  }

  lemma {:induction false} TrimRightDrops(s: string, c: char, cut: string)
    requires c in cut
    ensures TrimRight(s + [c], cut) == TrimRight(s, cut)
  {
    assert (s + [c])[..|s|] == s;
  }

  lemma {:induction false} TrimDropsEnd(s: string, c: char, cut: string)
    requires c in cut
    ensures Trim(s + [c], cut) == Trim(s, cut)
  {
    if s != "" && s[0] in cut {
      TrimDropsEnd(s[1..], c, cut);
      assert (s + [c])[1..] == s[1..] + [c];
    } else if s == "" {
      TrimLeftDrops(c, "", cut);
      assert [c] + "" == s + [c];
    } else {
      TrimRightDrops(s, c, cut);
    }
  }

  /** Blanks, tabs and carriage returns around a line do not matter, nor do they or newlines around a text. */
  lemma BlanksDoNotMatter(items: seq<Item>, line: string, text: string, c: char)
    ensures c == ' ' || c == '\r' || c == '\t' ==>
      Absorb(items, [c] + line) == Absorb(items, line) == Absorb(items, line + [c])
    ensures c == ' ' || c == '\r' || c == '\t' || c == '\n' ==> Parse([c] + text) == Parse(text) == Parse(text + [c])
  {
    if c == ' ' || c == '\r' || c == '\t' {
      TrimLeftDrops(c, line, BLANKS);
      TrimDropsEnd(line, c, BLANKS);
    }
    if c == ' ' || c == '\r' || c == '\t' || c == '\n' {
      TrimLeftDrops(c, text, WHITE);
      TrimDropsEnd(text, c, WHITE);
    }
  }
}
