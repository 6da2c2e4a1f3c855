/** The few string functions of Go's library that the repository relies on. */
module Strings {
  import opened Etcd

  predicate IsDigit(c: char) { '0' <= c <= '9' }

  predicate AllDigits(s: string) {
    forall i | 0 <= i < |s| :: IsDigit(s[i])
  }

  function DigitsValue(s: string): nat
    requires AllDigits(s)
  {
    if s == "" then 0 else 10 * DigitsValue(s[..|s| - 1]) + (s[|s| - 1] - '0') as nat
  }

  const INT_LIMIT: int := 0x8000_0000_0000_0000

  /** strconv.Atoi: an optional sign and at least one digit, in the range of a 64-bit integer. */
  function Atoi(s: string): Option<int> {
    var digits := if s != "" && (s[0] == '-' || s[0] == '+') then s[1..] else s;
    if digits == "" || !AllDigits(digits) then None
    else
      var value: int := DigitsValue(digits);
      var n := if s[0] == '-' then -value else value;
      if -INT_LIMIT <= n < INT_LIMIT then Some(n) else None
  }

  function Split(s: string, sep: char): (r: seq<string>)
    ensures |r| >= 1
  {
    if s == "" then [""]
    else
      var rest := Split(s[1..], sep);
      if s[0] == sep then [""] + rest else [[s[0]] + rest[0]] + rest[1..]
  }

  function Join(parts: seq<string>, sep: char): string
    requires |parts| >= 1
  {
    if |parts| == 1 then parts[0] else parts[0] + [sep] + Join(parts[1..], sep)
  }

  lemma {:induction false} JoinSplit(s: string, sep: char)
    ensures Join(Split(s, sep), sep) == s
  {
    if s != "" {
      var rest := Split(s[1..], sep);
      JoinSplit(s[1..], sep);
      if s[0] == sep {
        assert ([""] + rest)[1..] == rest;
      } else {
        var parts := [[s[0]] + rest[0]] + rest[1..];
        if |rest| > 1 {
          assert parts[1..] == rest[1..];
          assert Join(parts, sep) == [s[0]] + Join(rest, sep);
        }
      }
    }
  }

  lemma {:induction false} SplitPlain(s: string, sep: char)
    requires sep !in s
    ensures Split(s, sep) == [s]
  {
    if s != "" {
      SplitPlain(s[1..], sep);
      assert [s[0]] + s[1..] == s;
      assert [[s[0]] + s[1..]] + [] == [s];
    }
  }

  lemma {:induction false} SplitAtSep(a: string, sep: char, b: string)
    ensures Split(a + [sep] + b, sep) == Split(a, sep) + Split(b, sep)
  {
    var s, parts := a + [sep] + b, Split(b, sep);
    if a == "" {
      assert s[1..] == b;
    } else {
      SplitAtSep(a[1..], sep, b);
      assert s[1..] == a[1..] + [sep] + b;
      var rest := Split(a[1..], sep);
      if a[0] == sep {
        assert [""] + (rest + parts) == ([""] + rest) + parts;
      } else {
        SplitFirst(rest, parts, a[0]);
      }
    }
  }

  lemma SplitFirst(rest: seq<string>, parts: seq<string>, c: char)
    requires |rest| >= 1
    ensures [[c] + (rest + parts)[0]] + (rest + parts)[1..] == ([[c] + rest[0]] + rest[1..]) + parts
  {
    assert (rest + parts)[1..] == rest[1..] + parts;
  }

  lemma {:induction false} SplitHasNoSep(s: string, sep: char)
    ensures forall part | part in Split(s, sep) :: sep !in part
  {
    if s != "" {
      SplitHasNoSep(s[1..], sep);
      var rest := Split(s[1..], sep);
      assert rest[0] in rest && forall part | part in rest[1..] :: part in rest;
    }
  }

  // ---- Which texts are numbers

  predicate AreDigits(s: string) {
    s != "" && forall i | 0 <= i < |s| :: '0' <= s[i] <= '9'
  }

  /** Digits, at least one and nothing else, with or without a sign before them. */
  predicate HoldsNumber(s: string) {
    AreDigits(s) || (s != "" && (s[0] == '+' || s[0] == '-') && AreDigits(s[1..]))
  }

  function TenTo(n: nat): nat { if n == 0 then 1 else 10 * TenTo(n - 1) }

  lemma {:induction false} DigitsBound(s: string)
    requires AllDigits(s)
    ensures DigitsValue(s) < TenTo(|s|)
  {
    if s != "" {
      DigitsBound(s[..|s| - 1]);
    }
  }

  lemma {:induction false} TenToGrows(m: nat, n: nat)
    requires m <= n
    ensures TenTo(m) <= TenTo(n)
  {
    if m < n {
      TenToGrows(m, n - 1);
    }
  }

  lemma TenToEighteen()
    ensures TenTo(18) == 1_000_000_000_000_000_000
  {
    assert TenTo(3) == 1_000;
    assert TenTo(6) == 1_000_000;
    assert TenTo(9) == 1_000_000_000;
    assert TenTo(12) == 1_000_000_000_000;
    assert TenTo(15) == 1_000_000_000_000_000;
  }

  lemma DigitsAreSmall(digits: string)
    requires |digits| <= 18 && AllDigits(digits)
    ensures DigitsValue(digits) < 1_000_000_000_000_000_000
  {
    DigitsBound(digits);
    TenToGrows(|digits|, 18);
    TenToEighteen();
  }

  /** A text is read exactly if it holds a number that fits into 64 bits, and short ones always do. */
  lemma AtoiReadsIff(s: string)
    ensures Atoi(s).Some? <==>
            HoldsNumber(s) && (if s[0] == '-' then DigitsValue(s[1..]) <= 9_223_372_036_854_775_808
                               else DigitsValue(if s[0] == '+' then s[1..] else s) <= 9_223_372_036_854_775_807)
    ensures |s| <= 18 ==> (Atoi(s).Some? <==> HoldsNumber(s))
  {
    var digits := if s != "" && (s[0] == '-' || s[0] == '+') then s[1..] else s;
    assert digits != "" && AllDigits(digits) <==> AreDigits(digits);
    if s != "" && (s[0] == '-' || s[0] == '+') {
      assert !AreDigits(s);
    }
    if AreDigits(digits) && |s| <= 18 {
      DigitsAreSmall(digits);
    }
  }

  /** A sign says what it does elsewhere. */
  lemma AtoiSigns(digits: string)
    requires 1 <= |digits| <= 18 && AllDigits(digits)
    ensures var value: int := DigitsValue(digits);
            Atoi(digits) == Some(value) && Atoi("+" + digits) == Some(value) && Atoi("-" + digits) == Some(-value)
  {
    assert ("+" + digits)[1..] == digits && ("-" + digits)[1..] == digits;
    AtoiSigned(digits, digits);
    AtoiSigned("+" + digits, digits);
    AtoiSigned("-" + digits, digits);
  }

  lemma AtoiSigned(s: string, digits: string)
    requires 1 <= |digits| <= 18 && AllDigits(digits)
    requires s == digits || (s != "" && (s[0] == '+' || s[0] == '-') && s[1..] == digits)
    ensures var value: int := DigitsValue(digits); Atoi(s) == Some(if s[0] == '-' then -value else value)
  {
    DigitsAreSmall(digits);
    assert IsDigit(digits[0]);
  }

  /** Digits count by their place, the last one least. */
  lemma DigitsOfNumber()
    ensures AllDigits("874585") && DigitsValue("874585") == 874585
  {
    assert "874585"[..5] == "87458" && "87458"[..4] == "8745" && "8745"[..3] == "874" && "874"[..2] == "87";
    assert "87"[..1] == "8" && "8"[..0] == "";
  }
}
