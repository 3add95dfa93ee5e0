/** The Python `str` built-ins the core relies on, over `seq<char>`:
    `strip`, `split`, `join`, `startswith`, `in`, `replace`, `lower`, and
    `str()` / `toString(16)` of non-negative integers. */
module PyText {
  import opened Seqs

  /** `s.lstrip(cs)`: drops the leading characters that belong to `cs`. */
  function LStrip(s: string, cs: set<char>): (r: string)
    ensures |r| <= |s| && r == s[|s| - |r|..]
    ensures r == [] || r[0] !in cs
    ensures forall i :: 0 <= i < |s| - |r| ==> s[i] in cs
    decreases |s|
  {
    if |s| > 0 && s[0] in cs then LStrip(s[1..], cs) else s
  }

  /** `s.rstrip(cs)`: drops the trailing characters that belong to `cs`. */
  function RStrip(s: string, cs: set<char>): (r: string)
    ensures |r| <= |s| && r == s[..|r|]
    ensures r == [] || r[|r| - 1] !in cs
    ensures forall i :: |r| <= i < |s| ==> s[i] in cs
    decreases |s|
  {
    if |s| > 0 && s[|s| - 1] in cs then RStrip(s[..|s| - 1], cs) else s
  }

  /** `s.strip(cs)`: the longest middle slice of `s` that neither starts nor
      ends with a character of `cs`. */
  function Strip(s: string, cs: set<char>): (r: string)
    ensures exists i, j ::
      (&& 0 <= i <= j <= |s| && r == s[i..j]
       && (forall k :: 0 <= k < i ==> s[k] in cs)
       && (forall k :: j <= k < |s| ==> s[k] in cs))
    ensures r == [] || (r[0] !in cs && r[|r| - 1] !in cs)
  {
    var l := LStrip(s, cs);
    var r := RStrip(l, cs);
    assert r == s[|s| - |l|..|s| - |l| + |r|];
    r
  }

  /** A text that neither starts nor ends with a character of `cs` is left
      as it is. */
  lemma StripUnchanged(t: string, cs: set<char>)
    requires t != [] && t[0] !in cs && t[|t| - 1] !in cs
    ensures Strip(t, cs) == t
  {
    assert LStrip(t, cs) == t;
  }

  /** One stripped character in front of such a text goes. */
  lemma StripLeading(c: char, t: string, cs: set<char>)
    requires c in cs
    requires t != [] && t[0] !in cs && t[|t| - 1] !in cs
    ensures Strip([c] + t, cs) == t
  {
    assert ([c] + t)[1..] == t;
    assert LStrip([c] + t, cs) == LStrip(t, cs) == t;
  }

  /** One stripped character after such a text goes. */
  lemma StripTrailing(t: string, c: char, cs: set<char>)
    requires c in cs
    requires t != [] && t[0] !in cs && t[|t| - 1] !in cs
    ensures Strip(t + [c], cs) == t
  {
    assert (t + [c])[0] == t[0];
    assert LStrip(t + [c], cs) == t + [c];
    assert (t + [c])[..|t|] == t;
  }

  /** Python's whitespace for `str.strip()` with no argument (ASCII). */
  const Whitespace: set<char> := {' ', '\t', '\n', '\r', '\U{000B}', '\U{000C}'}

  /** `s.split(c)` for a one-character separator: the maximal runs between
      separators, so there is always at least one part. */
  function Split(s: string, c: char): (r: seq<string>)
    ensures |r| >= 1
    decreases |s|
  {
    if s == [] then [""]
    else
      SplitStep(s[0], c, Split(s[1..], c))
  }

  /** `sep.join(parts)`. */
  function Join(parts: seq<string>, sep: string): string
    decreases |parts|
  {
    if parts == [] then ""
    else if |parts| == 1 then parts[0]
    else parts[0] + sep + Join(parts[1..], sep)
  }

  /** The non-empty items of `secs`, in order: the sections a loop with
      `if section:` descends through. */
  function NonEmpty(secs: seq<string>): (r: seq<string>)
    ensures |r| <= |secs|
    ensures forall i :: 0 <= i < |r| ==> r[i] != []
    ensures (forall i :: 0 <= i < |secs| ==> secs[i] != []) ==> r == secs
    decreases |secs|
  {
    if secs == [] then []
    else if secs[0] == [] then NonEmpty(secs[1..])
    else [secs[0]] + NonEmpty(secs[1..])
  }

  /** `s.split(c, 1)`: the text before the first separator and, when there is
      one, the text after it. */
  function SplitOnce(s: string, c: char): (r: seq<string>)
    ensures 1 <= |r| <= 2
    ensures c !in r[0]
    ensures |r| == 1 <==> c !in s
    ensures |r| == 1 ==> r[0] == s
    ensures |r| == 2 ==> s == r[0] + [c] + r[1]
    decreases |s|
  {
    if s == [] then [""]
    else if s[0] == c then ["", s[1..]]
    else
      var rest := SplitOnce(s[1..], c);
      assert s == [s[0]] + s[1..];
      [[s[0]] + rest[0]] + rest[1..]
  }

  /** `s.split(c, 1)` cuts at the first separator: whatever follows it,
      separators included, stays in the second part. */
  lemma {:induction false} SplitOnceAt(a: string, b: string, c: char)
    requires c !in a
    ensures SplitOnce(a + [c] + b, c) == [a, b]
    decreases |a|
  {
    var s := a + [c] + b;
    if a != [] {
      assert s[1..] == a[1..] + [c] + b;
      SplitOnceAt(a[1..], b, c);
      assert [a[0]] + a[1..] == a;
    }
  }

  /** Splitting a join of separator-free parts gives the parts back. */
  lemma {:induction false} SplitJoin(parts: seq<string>, c: char)
    requires |parts| >= 1
    requires forall k :: 0 <= k < |parts| ==> c !in parts[k]
    ensures Split(Join(parts, [c]), c) == parts
    decreases |parts|
  {
    if |parts| == 1 {
      SplitNoSep(parts[0], c);
    } else {
      SplitJoin(parts[1..], c);
      SplitAppend(parts[0], Join(parts[1..], [c]), c);
      SplitNoSep(parts[0], c);
    }
  }

  /** No part of a split holds the separator. */
  lemma {:induction false} SplitPartsFree(s: string, c: char)
    ensures forall k :: 0 <= k < |Split(s, c)| ==> c !in Split(s, c)[k]
    decreases |s|
  {
    if s != [] {
      SplitPartsFree(s[1..], c);
    }
  }

  /** Joining the parts of a split gives the text back. */
  lemma {:induction false} JoinSplit(s: string, c: char)
    ensures Join(Split(s, c), [c]) == s
    decreases |s|
  {
    if s != [] {
      JoinSplit(s[1..], c);
      SplitUnfold(s, c);
      JoinStep(s[0], c, Split(s[1..], c));
      assert [s[0]] + s[1..] == s;
    }
  }

  /** Joining after one `Split` step puts the head character back in front. */
  lemma JoinStep(x: char, c: char, rest: seq<string>)
    requires |rest| >= 1
    ensures Join(SplitStep(x, c, rest), [c]) == [x] + Join(rest, [c])
  {
    if x == c {
      JoinStepSeparator(c, rest);
    } else if |rest| == 1 {
      JoinStepSingle(x, c, rest);
    } else {
      JoinStepLonger(x, c, rest);
    }
  }

  /** `JoinStep` when the head is the separator: an empty part in front. */
  lemma JoinStepSeparator(c: char, rest: seq<string>)
    requires |rest| >= 1
    ensures Join(SplitStep(c, c, rest), [c]) == [c] + Join(rest, [c])
  {
    JoinCons("", rest, [c]);
    assert "" + [c] + Join(rest, [c]) == [c] + Join(rest, [c]);
  }

  /** `JoinStep` when the head is glued to a single part. */
  lemma JoinStepSingle(x: char, c: char, rest: seq<string>)
    requires |rest| == 1 && x != c
    ensures Join(SplitStep(x, c, rest), [c]) == [x] + Join(rest, [c])
  {
    assert SplitStep(x, c, rest) == [[x] + rest[0]];
  }

  /** `JoinStep` when the head is glued to the first of several parts. */
  lemma JoinStepLonger(x: char, c: char, rest: seq<string>)
    requires |rest| >= 2 && x != c
    ensures Join(SplitStep(x, c, rest), [c]) == [x] + Join(rest, [c])
  {
    var h, t := rest[0], rest[1..];
    assert SplitStep(x, c, rest) == [[x] + h] + t;
    JoinCons([x] + h, t, [c]);
    assert [h] + t == rest;
    JoinCons(h, t, [c]);
    Regroup([x], h, [c], Join(t, [c]));
  }

  /** A join with a part put in front of at least one other part. */
  lemma JoinCons(p: string, rest: seq<string>, sep: string)
    requires |rest| >= 1
    ensures Join([p] + rest, sep) == p + sep + Join(rest, sep)
  {
    assert ([p] + rest)[1..] == rest;
  }

  /** A text without the separator splits into itself. */
  lemma {:induction false} SplitNoSep(s: string, c: char)
    requires c !in s
    ensures Split(s, c) == [s]
    decreases |s|
  {
    if s != [] {
      var rest := s[1..];
      assert s == [s[0]] + rest;
      SplitNoSep(rest, c);
      SplitUnfold(s, c);
      assert SplitStep(s[0], c, [rest]) == [[s[0]] + rest];
    }
  }

  /** Splitting at a separator occurrence splits the two sides independently. */
  lemma {:induction false} SplitAppend(a: string, b: string, c: char)
    ensures Split(a + [c] + b, c) == Split(a, c) + Split(b, c)
    decreases |a|
  {
    if a == [] {
      assert a + [c] + b == [c] + b;
      SplitUnfold([c] + b, c);
      assert ([c] + b)[1..] == b;
    } else {
      var s := a + [c] + b;
      var t := a[1..] + [c] + b;
      assert s[0] == a[0] && s[1..] == t;
      SplitAppend(a[1..], b, c);
      SplitUnfold(s, c);
      SplitUnfold(a, c);
      ConsAppend(a[0], c, Split(a[1..], c), Split(b, c));
    }
  }

  /** One step of `Split` on a non-empty text. */
  lemma SplitUnfold(s: string, c: char)
    requires s != []
    ensures Split(s, c) == SplitStep(s[0], c, Split(s[1..], c))
  {
  }

  /** How `Split` extends the parts of the tail by the head character. */
  function SplitStep(x: char, c: char, rest: seq<string>): seq<string>
    requires |rest| >= 1
  {
    if x == c then [""] + rest else [[x] + rest[0]] + rest[1..]
  }

  lemma ConsAppend(x: char, c: char, ra: seq<string>, sb: seq<string>)
    requires |ra| >= 1
    ensures SplitStep(x, c, ra + sb) == SplitStep(x, c, ra) + sb
  {
    if x != c {
      assert (ra + sb)[0] == ra[0];
      assert (ra + sb)[1..] == ra[1..] + sb;
    }
  }

  /** `s.startswith(p)`. */
  predicate StartsWith(s: string, p: string) {
    |p| <= |s| && s[..|p|] == p
  }

  /** `sub` occurs in `s` starting at index `i`. */
  predicate OccursAt(s: string, sub: string, i: int) {
    0 <= i <= |s| - |sub| && s[i..i + |sub|] == sub
  }

  /** `sub in s` for strings: `sub` occurs as a contiguous slice of `s`. */
  predicate Contains(s: string, sub: string) {
    exists i | 0 <= i <= |s| - |sub| :: OccursAt(s, sub, i)
  }

  /** `s.replace(a, b)` for one-character `a` and `b`. */
  function ReplaceChar(s: string, a: char, b: char): (r: string)
    ensures |r| == |s|
    ensures forall i :: 0 <= i < |s| ==> r[i] == if s[i] == a then b else s[i]
  {
    seq(|s|, i requires 0 <= i < |s| => if s[i] == a then b else s[i])
  }

  /** ASCII `lower()` of one character. */
  function LowerChar(c: char): char {
    if 'A' <= c <= 'Z' then (c as int - 'A' as int + 'a' as int) as char else c
  }

  /** ASCII `s.lower()`. */
  function Lower(s: string): (r: string)
    ensures |r| == |s|
    ensures forall i :: 0 <= i < |s| ==> r[i] == LowerChar(s[i])
  {
    seq(|s|, i requires 0 <= i < |s| => LowerChar(s[i]))
  }

  /** The digit for `d` in bases up to 16, lower case as Python and
      JavaScript print them. */
  function DigitChar(d: nat): char
    requires d < 16
  {
    if d < 10 then ('0' as int + d) as char else ('a' as int + d - 10) as char
  }

  /** The value of a digit character of `0-9a-f`; 16 for any other character. */
  function DigitValue(c: char): nat {
    if '0' <= c <= '9' then c as int - '0' as int
    else if 'a' <= c <= 'f' then c as int - 'a' as int + 10
    else 16
  }

  lemma DigitRoundTrip(d: nat)
    requires d < 16
    ensures DigitValue(DigitChar(d)) == d
  {
  }

  predicate IsDecimal(s: string) {
    forall i :: 0 <= i < |s| ==> DigitValue(s[i]) < 10
  }

  predicate IsHex(s: string) {
    forall i :: 0 <= i < |s| ==> DigitValue(s[i]) < 16
  }

  /** The number a text of decimal digits denotes. */
  function DecimalValue(s: string): nat
    requires IsDecimal(s)
    decreases |s|
  {
    if s == [] then 0 else DecimalValue(s[..|s| - 1]) * 10 + DigitValue(s[|s| - 1])
  }

  /** The number a text of hexadecimal digits denotes. */
  function HexValue(s: string): nat
    requires IsHex(s)
    decreases |s|
  {
    if s == [] then 0 else HexValue(s[..|s| - 1]) * 16 + DigitValue(s[|s| - 1])
  }

  /** Python's `str(n)` for a non-negative integer. */
  function Decimal(n: nat): (r: string)
    ensures |r| >= 1 && IsDecimal(r)
    ensures |r| > 1 ==> r[0] != '0'
    decreases n
  {
    if n < 10 then [DigitChar(n)] else Decimal(n / 10) + [DigitChar(n % 10)]
  }

  /** JavaScript's `n.toString(16)` for a non-negative integer. */
  function Hex(n: nat): (r: string)
    ensures |r| >= 1 && IsHex(r)
    ensures |r| > 1 ==> r[0] != '0'
    decreases n
  {
    if n < 16 then [DigitChar(n)] else Hex(n / 16) + [DigitChar(n % 16)]
  }

  /** Reading back what Decimal wrote gives the number again. */
  lemma {:induction false} DecimalRoundTrip(n: nat)
    ensures DecimalValue(Decimal(n)) == n
    decreases n
  {
    DigitRoundTrip(n % 10);
    if n < 10 {
      DigitRoundTrip(n);
    } else {
      DecimalRoundTrip(n / 10);
      var s := Decimal(n);
      assert s[..|s| - 1] == Decimal(n / 10);
    }
  }

  /** Reading back what Hex wrote gives the number again. */
  lemma {:induction false} HexRoundTrip(n: nat)
    ensures HexValue(Hex(n)) == n
    decreases n
  {
    DigitRoundTrip(n % 16);
    if n < 16 {
      DigitRoundTrip(n);
    } else {
      HexRoundTrip(n / 16);
      var s := Hex(n);
      assert s[..|s| - 1] == Hex(n / 16);
    }
  }

  /** Different numbers are written differently in hexadecimal. */
  lemma HexInjective(m: nat, n: nat)
    requires Hex(m) == Hex(n)
    ensures m == n
  {
    HexRoundTrip(m);
    HexRoundTrip(n);
  }

  /** Python's `str(i)` for an integer. */
  function IntToString(i: int): (r: string)
    ensures |r| >= 1
    ensures i >= 0 ==> r == Decimal(i)
    ensures i < 0 ==> r == "-" + Decimal(-i)
  {
    if i >= 0 then Decimal(i) else "-" + Decimal(-i)
  }
}
