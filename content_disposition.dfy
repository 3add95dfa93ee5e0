/** The `Content-Disposition` header `FuzzyPathHandler.__call__` sends with a
    download: the file name UTF-8 encoded and percent-quoted by
    `urllib.quote` with a given set of safe characters, and, when quoting
    changed the name, a second Latin-1 version with every character above
    255 replaced (the two-parameter form of section 3.2 of RFC 5987). */
module ContentDisposition {

  newtype Byte = x: int | 0 <= x < 256

  /** The UTF-8 encoding of one character, as in section 3 of RFC 3629:
      one byte for ASCII, otherwise a lead byte telling the length followed
      by continuation bytes. */
  function Utf8Char(c: char): (r: seq<Byte>)
    ensures 1 <= |r| <= 4
    ensures |r| == 1 <==> c as int < 0x80
    ensures |r| == 1 ==> r[0] as int == c as int
    ensures |r| > 1 ==> r[0] >= 0xC0 && forall k :: 1 <= k < |r| ==> 0x80 <= r[k] < 0xC0
  {
    var cp := c as int;
    if cp < 0x80 then [cp as Byte]
    else if cp < 0x800 then [(0xC0 + cp / 64) as Byte, (0x80 + cp % 64) as Byte]
    else if cp < 0x10000 then
      [(0xE0 + cp / 4096) as Byte, (0x80 + cp / 64 % 64) as Byte, (0x80 + cp % 64) as Byte]
    else
      [(0xF0 + cp / 262144) as Byte, (0x80 + cp / 4096 % 64) as Byte,
       (0x80 + cp / 64 % 64) as Byte, (0x80 + cp % 64) as Byte]
  }

  /** The code point a UTF-8 sequence of one to four bytes stands for. */
  function Utf8Value(bs: seq<Byte>): int
    requires 1 <= |bs| <= 4
  {
    if |bs| == 1 then bs[0] as int
    else if |bs| == 2 then (bs[0] as int - 0xC0) * 64 + (bs[1] as int - 0x80)
    else if |bs| == 3 then
      (bs[0] as int - 0xE0) * 4096 + (bs[1] as int - 0x80) * 64 + (bs[2] as int - 0x80)
    else
      (bs[0] as int - 0xF0) * 262144 + (bs[1] as int - 0x80) * 4096
        + (bs[2] as int - 0x80) * 64 + (bs[3] as int - 0x80)
  }

  /** Decoding the encoding of a character gives the character back. */
  lemma Utf8RoundTrip(c: char)
    ensures Utf8Value(Utf8Char(c)) == c as int
  {
    var cp := c as int;
    if 0x80 <= cp < 0x800 {
      TwoByteRoundTrip(cp);
    } else if 0x800 <= cp < 0x10000 {
      ThreeByteRoundTrip(cp);
    } else if 0x10000 <= cp {
      FourByteRoundTrip(cp);
    }
  }

  lemma TwoByteRoundTrip(cp: int)
    requires 0x80 <= cp < 0x800
    ensures (0xC0 + cp / 64 - 0xC0) * 64 + (0x80 + cp % 64 - 0x80) == cp
  {
  }

  lemma ThreeByteRoundTrip(cp: int)
    requires 0x800 <= cp < 0x10000
    ensures (0xE0 + cp / 4096 - 0xE0) * 4096 + (0x80 + cp / 64 % 64 - 0x80) * 64 + (0x80 + cp % 64 - 0x80) == cp
  {
    assert cp / 64 == cp / 4096 * 64 + cp / 64 % 64;
  }

  lemma FourByteRoundTrip(cp: int)
    requires 0x10000 <= cp
    ensures (0xF0 + cp / 262144 - 0xF0) * 262144 + (0x80 + cp / 4096 % 64 - 0x80) * 4096
          + (0x80 + cp / 64 % 64 - 0x80) * 64 + (0x80 + cp % 64 - 0x80) == cp
  {
    assert cp / 4096 == cp / 262144 * 64 + cp / 4096 % 64;
    assert cp / 64 == cp / 4096 * 64 + cp / 64 % 64;
  }

  /** `s.encode('utf8')`. */
  function Utf8(s: string): (r: seq<Byte>)
    ensures |r| >= |s|
    decreases |s|
  {
    if s == [] then [] else Utf8(s[..|s| - 1]) + Utf8Char(s[|s| - 1])
  }

  /** The characters `urllib.quote` leaves alone with the safe set
      `!#$%&+-^_`{}~`: ASCII letters and digits, `_.-`, and that set. */
  predicate SafeChar(c: char) {
    || 'a' <= c <= 'z' || 'A' <= c <= 'Z' || '0' <= c <= '9'
    || c in {'_', '.', '-', '!', '#', '$', '%', '&', '+', '^', '`', '{', '}', '~'}
  }

  /** Every character of `name` is safe. */
  predicate AllSafe(name: string) {
    forall i :: 0 <= i < |name| ==> SafeChar(name[i])
  }

  /** An upper-case hexadecimal digit. */
  function HexUpper(d: nat): (r: char)
    requires d < 16
    ensures r as int < 0x80
  {
    if d < 10 then ('0' as int + d) as char else ('A' as int + d - 10) as char
  }

  /** The quoting of one byte: itself when it is a safe ASCII character,
      otherwise `%` and two upper-case hexadecimal digits. */
  function QuoteByte(b: Byte): (r: string)
    ensures |r| == 1 || |r| == 3
    ensures |r| == 1 <==> b < 0x80 && SafeChar(b as int as char)
    ensures |r| == 1 ==> r[0] as int == b as int
    ensures forall i :: 0 <= i < |r| ==> r[i] as int < 0x80
  {
    if b < 0x80 && SafeChar(b as int as char) then [b as int as char]
    else ['%', HexUpper(b as int / 16), HexUpper(b as int % 16)]
  }

  /** `urllib.quote(bs, safe)`. */
  function Quote(bs: seq<Byte>): (r: string)
    ensures forall i :: 0 <= i < |r| ==> r[i] as int < 0x80
    decreases |bs|
  {
    if bs == [] then []
    else
      var front := Quote(bs[..|bs| - 1]);
      var last := QuoteByte(bs[|bs| - 1]);
      assert forall i :: |front| <= i < |front + last| ==> (front + last)[i] == last[i - |front|];
      front + last
  }

  lemma {:induction false} QuoteAppend(a: seq<Byte>, b: seq<Byte>)
    ensures Quote(a + b) == Quote(a) + Quote(b)
    decreases |b|
  {
    if b == [] {
      assert a + b == a;
    } else {
      assert (a + b)[..|a + b| - 1] == a + b[..|b| - 1];
      assert (a + b)[|a + b| - 1] == b[|b| - 1];
      QuoteAppend(a, b[..|b| - 1]);
    }
  }

  /** The quoted UTF-8 form of a file name: `_efn`. */
  function Encoded(name: string): string {
    Quote(Utf8(name))
  }

  /** A safe character quotes to itself; any other character to at least
      two characters. */
  lemma QuoteChar(c: char)
    ensures SafeChar(c) ==> Quote(Utf8Char(c)) == [c]
    ensures !SafeChar(c) ==> |Quote(Utf8Char(c))| >= 2
  {
    if c as int < 0x80 {
      QuoteAsciiChar(c);
    } else {
      QuoteLength(Utf8Char(c));
    }
  }

  lemma QuoteAsciiChar(c: char)
    requires c as int < 0x80
    ensures SafeChar(c) ==> Quote(Utf8Char(c)) == [c]
    ensures !SafeChar(c) ==> |Quote(Utf8Char(c))| == 3
  {
    var b := (c as int) as Byte;
    assert Utf8Char(c) == [b];
    QuoteOne(b);
    assert b as int as char == c;
  }

  lemma QuoteOne(b: Byte)
    ensures Quote([b]) == QuoteByte(b)
  {
    assert [b][..0] == [];
  }

  lemma {:induction false} QuoteLength(bs: seq<Byte>)
    ensures |Quote(bs)| >= |bs|
    decreases |bs|
  {
    if bs != [] {
      QuoteLength(bs[..|bs| - 1]);
    }
  }

  lemma EncodedStep(s: string, c: char)
    ensures Encoded(s + [c]) == Encoded(s) + Quote(Utf8Char(c))
  {
    assert (s + [c])[..|s|] == s;
    QuoteAppend(Utf8(s), Utf8Char(c));
  }

  /** Quoting never shortens a name, leaves a name of safe characters as
      it is, and lengthens any other name. */
  lemma {:induction false} EncodedLength(name: string)
    ensures |Encoded(name)| >= |name|
    ensures AllSafe(name) ==> Encoded(name) == name
    ensures !AllSafe(name) ==> |Encoded(name)| > |name|
    decreases |name|
  {
    if name != [] {
      var front := name[..|name| - 1];
      var c := name[|name| - 1];
      assert name == front + [c];
      EncodedLength(front);
      EncodedStep(front, c);
      QuoteChar(c);
      AllSafeSnoc(front, c);
    }
  }

  lemma AllSafeSnoc(front: string, c: char)
    ensures AllSafe(front + [c]) <==> AllSafe(front) && SafeChar(c)
  {
    if AllSafe(front) && SafeChar(c) {
      forall i | 0 <= i < |front + [c]|
        ensures SafeChar((front + [c])[i])
      {
        if i < |front| {
          assert (front + [c])[i] == front[i];
        }
      }
    }
    if AllSafe(front + [c]) {
      assert (front + [c])[|front|] == c;
      forall i | 0 <= i < |front|
        ensures SafeChar(front[i])
      {
        assert (front + [c])[i] == front[i];
      }
    }
  }

  /** `_file_name == _efn` exactly when every character of the name is
      safe. */
  lemma EncodedUnchangedIff(name: string)
    ensures Encoded(name) == name <==> AllSafe(name)
  {
    EncodedLength(name);
  }

  /** `_cfn`: the name with every character above 255 replaced by `_`. */
  function Latin1(name: string): (r: string) {
    seq(|name|, i requires 0 <= i < |name| => if name[i] as int > 255 then '_' else name[i])
  }

  /** The fallback name keeps every Latin-1 character in place and has
      nothing beyond Latin-1. */
  lemma Latin1Properties(name: string)
    ensures |Latin1(name)| == |name|
    ensures forall i :: 0 <= i < |name| ==> Latin1(name)[i] as int <= 255
    ensures forall i :: 0 <= i < |name| && name[i] as int <= 255 ==> Latin1(name)[i] == name[i]
  {
  }

  /** The loop building `_cfn`. */
  method Latin1Fallback(name: string) returns (cfn: string)
    ensures cfn == Latin1(name)
  {
    cfn := [];
    for i := 0 to |name|
      invariant |cfn| == i
      invariant forall k :: 0 <= k < i ==> cfn[k] == (if name[k] as int > 255 then '_' else name[k])
    {
      if name[i] as int > 255 {
        cfn := cfn + ['_'];
      } else {
        cfn := cfn + [name[i]];
      }
    }
  }

  /** The header value for a name quoting leaves unchanged, and for any
      other name. */
  function DispositionValue(name: string): string {
    var efn := Encoded(name);
    if name == efn then "attachment; filename=\"" + name + "\""
    else "attachment; filename=\"" + Latin1(name) + "\"; filename*=utf-8''" + efn
  }

  /** A name of safe characters is sent once, as it is; any other name is
      sent twice: in Latin-1 and quoted. */
  lemma DispositionForms(name: string)
    ensures AllSafe(name) ==>
      DispositionValue(name) == "attachment; filename=\"" + name + "\""
    ensures !AllSafe(name) ==>
      DispositionValue(name) == "attachment; filename=\"" + Latin1(name) + "\"; filename*=utf-8''" + Encoded(name)
  {
    EncodedUnchangedIff(name);
  }

  /** The `Content-Disposition` step of `__call__`. */
  method ContentDispositionFor(name: string) returns (value: string)
    ensures value == DispositionValue(name)
  {
    var efn := Encoded(name);
    if name == efn {
      value := "attachment; filename=\"" + name + "\"";
    } else {
      var cfn := Latin1Fallback(name);
      value := "attachment; filename=\"" + cfn + "\"; filename*=utf-8''" + efn;
    }
  }
}
