/** Lines, trimming and decimal numbers: the string operations the diff code relies on. */
module Text {
  import opened Collections

  const MAX_INT: int := 0x7fff_ffff_ffff_ffff

  predicate HasPrefix(s: string, prefix: string) {
    prefix <= s
  }

  // ----- lines -----

  /** The lines of a text that begins with `c` and goes on with `lines`. */
  function Cons(c: char, lines: seq<string>): (r: seq<string>)
    requires |lines| > 0
    ensures |r| > 0
  {
    if c == '\n' then [""] + lines else [[c] + lines[0]] + lines[1..]
  }

  /** The lines of `s`, split at every newline. */
  function Split(s: string): (lines: seq<string>)
    ensures |lines| > 0
  {
    if s == "" then [""] else Cons(s[0], Split(s[1..]))
  }

  function Join(lines: seq<string>): string {
    if |lines| == 0 then ""
    else if |lines| == 1 then lines[0]
    else lines[0] + "\n" + Join(lines[1..])
  }

  predicate OneLine(s: string) {
    '\n' !in s
  }

  predicate OneLines(lines: seq<string>) {
    forall i | 0 <= i < |lines| :: OneLine(lines[i])
  }

  lemma SplitCons(c: char, s: string)
    ensures Split([c] + s) == Cons(c, Split(s))
  {
    assert ([c] + s)[1..] == s;
  }

  lemma ConsAppend(c: char, a: seq<string>, b: seq<string>)
    requires |a| > 0
    ensures Cons(c, a + b) == Cons(c, a) + b
  {
    assert (a + b)[0] == a[0] && (a + b)[1..] == a[1..] + b;
  }

  lemma {:induction false} SplitAppend(a: string, b: string)
    ensures Split(a + "\n" + b) == Split(a) + Split(b)
  {
    if a == "" {
      assert a + "\n" + b == ['\n'] + b;
      SplitCons('\n', b);
    } else {
      SplitAppend(a[1..], b);
      assert a + "\n" + b == [a[0]] + (a[1..] + "\n" + b);
      SplitCons(a[0], a[1..] + "\n" + b);
      ConsAppend(a[0], Split(a[1..]), Split(b));
    }
  }

  lemma {:induction false} SplitOneLine(s: string)
    requires OneLine(s)
    ensures Split(s) == [s]
  {
    if s != "" {
      SplitOneLine(s[1..]);
      assert [s[0]] + s[1..] == s;
    }
  }

  lemma {:induction false} SplitJoin(lines: seq<string>)
    requires |lines| > 0 && OneLines(lines)
    ensures Split(Join(lines)) == lines
  {
    SplitOneLine(lines[0]);
    if |lines| > 1 {
      SplitJoin(lines[1..]);
      SplitAppend(lines[0], Join(lines[1..]));
      assert [lines[0]] + lines[1..] == lines;
    } else {
      assert [lines[0]] == lines;
    }
  }

  lemma {:induction false} SplitIsLines(s: string)
    ensures OneLines(Split(s)) && Join(Split(s)) == s
  {
    if s != "" {
      SplitIsLines(s[1..]);
      var rest := Split(s[1..]);
      if s[0] == '\n' {
        assert ([""] + rest)[1..] == rest;
      } else {
        var lines := [[s[0]] + rest[0]] + rest[1..];
        assert lines[1..] == rest[1..];
        assert rest == [rest[0]] + rest[1..];
      }
      assert [s[0]] + s[1..] == s;
    }
  }

  lemma {:induction false} JoinAppend(a: seq<string>, b: seq<string>)
    requires |a| > 0 && |b| > 0
    ensures Join(a + b) == Join(a) + "\n" + Join(b)
  {
    if |a| > 1 {
      JoinAppend(a[1..], b);
      assert (a + b)[1..] == a[1..] + b;
    } else {
      assert (a + b)[1..] == b;
    }
  }

  // ----- white space -----

  predicate IsSpace(c: char) {
    || c == ' ' || '\t' <= c <= '\r' || c == '\U{85}' || c == '\U{A0}' || c == '\U{1680}'
    || '\U{2000}' <= c <= '\U{200A}' || c == '\U{2028}' || c == '\U{2029}' || c == '\U{202F}'
    || c == '\U{205F}' || c == '\U{3000}'
  }

  function TrimLeft(s: string): string {
    if s != "" && IsSpace(s[0]) then TrimLeft(s[1..]) else s
  }

  function TrimRight(s: string): string {
    if s != "" && IsSpace(s[|s| - 1]) then TrimRight(s[..|s| - 1]) else s
  }

  function TrimSpace(s: string): string {
    TrimRight(TrimLeft(s))
  }

  predicate Trimmed(s: string) {
    s == "" || (!IsSpace(s[0]) && !IsSpace(s[|s| - 1]))
  }

  lemma TrimmedIsFixed(s: string)
    requires Trimmed(s)
    ensures TrimSpace(s) == s
  {
  }

  lemma {:induction false} TrimRightTrims(s: string)
    ensures var t := TrimRight(s);
            t <= s && (t != "" ==> !IsSpace(t[|t| - 1])) && (s != "" && !IsSpace(s[0]) ==> t != "")
  {
    if s != "" && IsSpace(s[|s| - 1]) { TrimRightTrims(s[..|s| - 1]); }
  }

  lemma {:induction false} TrimLeftTrims(s: string)
    ensures TrimLeft(s) != "" ==> !IsSpace(TrimLeft(s)[0])
  {
    if s != "" && IsSpace(s[0]) { TrimLeftTrims(s[1..]); }
  }

  lemma TrimSpaceTrimmed(s: string)
    ensures Trimmed(TrimSpace(s))
  {
    TrimLeftTrims(s);
    TrimRightTrims(TrimLeft(s));
  }

  predicate AllSpace(s: string) {
    forall i | 0 <= i < |s| :: IsSpace(s[i])
  }

  lemma {:induction false} TrimLeftCuts(s: string) returns (n: nat)
    ensures n <= |s| && TrimLeft(s) == s[n..] && AllSpace(s[..n])
  {
    n := 0;
    if s != "" && IsSpace(s[0]) {
      n := TrimLeftCuts(s[1..]);
      n := n + 1;
      assert s[..n] == [s[0]] + s[1..][..n - 1];
    }
  }

  lemma {:induction false} TrimRightCuts(s: string) returns (n: nat)
    ensures n <= |s| && TrimRight(s) == s[..n] && AllSpace(s[n..])
  {
    n := |s|;
    if s != "" && IsSpace(s[|s| - 1]) {
      n := TrimRightCuts(s[..|s| - 1]);
      assert s[n..] == s[..|s| - 1][n..] + [s[|s| - 1]];
      assert s[..|s| - 1][..n] == s[..n];
    }
  }

  /** Trimming takes away white space only, and all of it at either end. */
  lemma TrimSpaceCuts(s: string) returns (i: nat, j: nat)
    ensures i <= j <= |s| && TrimSpace(s) == s[i..j] && AllSpace(s[..i]) && AllSpace(s[j..]) && Trimmed(TrimSpace(s))
  {
    hide TrimLeft, TrimRight, AllSpace;
    i := TrimLeftCuts(s);
    var n := TrimRightCuts(s[i..]);
    j := i + n;
    TrimSpaceTrimmed(s);
    assert s[i..][..n] == s[i..j] && s[i..][n..] == s[j..];
  }

  lemma {:induction false} TrimLeftAppend(s: string, c: char)
    requires IsSpace(c)
    ensures TrimLeft(s + [c]) == if TrimLeft(s) == "" then "" else TrimLeft(s) + [c]
  {
    if s == "" {
      assert s + [c] == [c];
    } else if IsSpace(s[0]) {
      assert (s + [c])[1..] == s[1..] + [c];
      TrimLeftAppend(s[1..], c);
    }
  }

  /** Trimming the right first changes nothing. */
  lemma {:induction false} TrimRightFirst(s: string)
    ensures TrimSpace(TrimRight(s)) == TrimSpace(s)
  {
    if s != "" && IsSpace(s[|s| - 1]) {
      var front, c := s[..|s| - 1], s[|s| - 1];
      assert s == front + [c];
      TrimRightFirst(front);
      TrimLeftAppend(front, c);
      var left := TrimLeft(front);
      assert left != "" ==> (left + [c])[..|left|] == left;
    }
  }

  lemma {:induction false} TrimRightAfter(s: string, t: string)
    requires s != "" && !IsSpace(s[|s| - 1])
    ensures TrimRight(s + t) == s + TrimRight(t)
  {
    if t == "" {
      assert s + t == s;
    } else if IsSpace(t[|t| - 1]) {
      assert (s + t)[..|s + t| - 1] == s + t[..|t| - 1];
      TrimRightAfter(s, t[..|t| - 1]);
    }
  }

  // ----- decimal numbers -----

  predicate IsDigit(c: char) {
    '0' <= c <= '9'
  }

  predicate AllDigits(s: string) {
    forall i | 0 <= i < |s| :: IsDigit(s[i])
  }

  /** How many leading characters of `s` are digits. */
  function DigitRun(s: string): (n: nat)
    ensures n <= |s| && AllDigits(s[..n]) && (n < |s| ==> !IsDigit(s[n]))
  {
    if s != "" && IsDigit(s[0]) then
      var n := DigitRun(s[1..]);
      assert s[..n + 1] == [s[0]] + s[1..][..n];
      n + 1
    else 0
  }

  function DigitsValue(s: string): nat
    requires AllDigits(s)
  {
    if s == "" then 0 else DigitsValue(s[..|s| - 1]) * 10 + (s[|s| - 1] as int - '0' as int)
  }

  /** Base-ten conversion of a string with an optional sign; None when malformed or out of the 64-bit range. */
  function Atoi(s: string): Option<int> {
    var negative := s != "" && s[0] == '-';
    var digits := if s != "" && (s[0] == '-' || s[0] == '+') then s[1..] else s;
    if digits == "" || !AllDigits(digits) then None
    else
      var magnitude: int := DigitsValue(digits);
      var value := if negative then -magnitude else magnitude;
      if -MAX_INT - 1 <= value <= MAX_INT then Some(value) else None
  }

  function ToDecimal(n: nat): (s: string)
    ensures s != "" && AllDigits(s)
  {
    if n < 10 then [('0' as int + n) as char] else ToDecimal(n / 10) + [('0' as int + n % 10) as char]
  }

  lemma {:induction false} DecimalValue(n: nat)
    ensures DigitsValue(ToDecimal(n)) == n
  {
    var s := ToDecimal(n);
    if n >= 10 {
      DecimalValue(n / 10);
      assert s[..|s| - 1] == ToDecimal(n / 10);
    } else {
      assert s[..0] == "";
    }
  }

  /** A number ends where its digits do. */
  lemma SameDecimal(n: nat, m: nat, rest: string, other: string)
    requires rest != "" && !IsDigit(rest[0]) && other != "" && !IsDigit(other[0])
    requires ToDecimal(n) + rest == ToDecimal(m) + other
    ensures n == m && rest == other
  {
    DigitRunStops(ToDecimal(n), rest);
    DigitRunStops(ToDecimal(m), other);
    assert ToDecimal(n) == (ToDecimal(n) + rest)[..|ToDecimal(n)|] == ToDecimal(m);
    assert rest == (ToDecimal(n) + rest)[|ToDecimal(n)|..] == other;
    DecimalValue(n);
    DecimalValue(m);
  }

  lemma AtoiDecimal(n: nat)
    requires n <= MAX_INT
    ensures Atoi(ToDecimal(n)) == Some(n)
  {
    DecimalValue(n);
    assert IsDigit(ToDecimal(n)[0]);
  }

  lemma {:induction false} DigitRunStops(digits: string, rest: string)
    requires AllDigits(digits) && (rest == "" || !IsDigit(rest[0]))
    ensures DigitRun(digits + rest) == |digits|
  {
    if digits == "" {
      assert digits + rest == rest;
    } else {
      DigitRunStops(digits[1..], rest);
      assert (digits + rest)[1..] == digits[1..] + rest;
    }
  }

  // ----- substrings -----

  predicate ContainsAt(s: string, part: string, i: nat) {
    i + |part| <= |s| && s[i..i + |part|] == part
  }

  predicate Contains(s: string, part: string) {
    exists i | 0 <= i <= |s| :: ContainsAt(s, part, i)
  }

  lemma EndContains(s: string, part: string)
    ensures Contains(s + part, part)
  {
    assert ContainsAt(s + part, part, |s|);
  }

  /** ASCII letters only. */
  function ToLower(s: string): (r: string)
    ensures |r| == |s|
  {
    seq(|s|, i requires 0 <= i < |s| => if 'A' <= s[i] <= 'Z' then s[i] - 'A' + 'a' else s[i])
  }
}
