/**
  Cursor tokens: `(sort value, id)` as text, UTF-8, and base64url (RFC 4648, section 5) without
  padding - and the way back.
 */
module Cursor {
  import opened Base
  import opened Digits
  import opened IsoTime

  type Byte = b: int | 0 <= b < 256

  // ---- UTF-8 ----

  predicate Continuation(b: Byte) {
    0x80 <= b < 0xC0
  }

  function EncodeChar(c: char): seq<Byte> {
    var n := c as int;
    if n < 0x80 then [n]
    else if n < 0x800 then [0xC0 + n / 64, 0x80 + n % 64]
    else if n < 0x1_0000 then [0xE0 + n / 64 / 64, 0x80 + n / 64 % 64, 0x80 + n % 64]
    else [0xF0 + n / 64 / 64 / 64, 0x80 + n / 64 / 64 % 64, 0x80 + n / 64 % 64, 0x80 + n % 64]
  }

  function EncodeUtf8(s: string): seq<Byte> {
    if s == [] then [] else EncodeChar(s[0]) + EncodeUtf8(s[1..])
  }

  predicate Scalar(n: int) {
    0 <= n < 0xD800 || 0xE000 <= n < 0x11_0000
  }

  /** The code point of a lead value and its continuation bytes. */
  function CodePoint(lead: int, tail: seq<Byte>): int {
    if tail == [] then lead else CodePoint(lead, Front(tail)) * 64 + Last(tail) - 0x80
  }

  function CharOf(n: int, least: int, length: nat): Option<(char, nat)> {
    if n >= least && Scalar(n) then Some((n as char, length)) else None
  }

  /** The first character of a byte string and its length, if the bytes are well formed. */
  function DecodeChar(b: seq<Byte>): (r: Option<(char, nat)>)
    requires b != []
    ensures r.Some? ==> 1 <= r.value.1 <= |b|
  {
    if b[0] < 0x80 then CharOf(b[0], 0, 1)
    else if 0xC2 <= b[0] < 0xE0 && |b| >= 2 && Continuation(b[1]) then
      CharOf(CodePoint(b[0] - 0xC0, b[1..2]), 0x80, 2)
    else if 0xE0 <= b[0] < 0xF0 && |b| >= 3 && Continuation(b[1]) && Continuation(b[2]) then
      CharOf(CodePoint(b[0] - 0xE0, b[1..3]), 0x800, 3)
    else if 0xF0 <= b[0] < 0xF5 && |b| >= 4 && Continuation(b[1]) && Continuation(b[2]) && Continuation(b[3]) then
      CharOf(CodePoint(b[0] - 0xF0, b[1..4]), 0x1_0000, 4)
    else None
  }

  /** Strict decoding: overlong forms, surrogates and stray bytes are refused. */
  function DecodeUtf8(b: seq<Byte>): Option<string> {
    if b == [] then Some([])
    else
      var first := DecodeChar(b);
      if first.None? then None
      else
        var rest := DecodeUtf8(b[first.value.1..]);
        if rest.None? then None else Some([first.value.0] + rest.value)
  }

  /** One more continuation byte: bytes that denote `n / 64` denote `n` with the low six bits appended. */
  lemma {:induction false} Continued(n: nat, tail: seq<Byte>)
    ensures tail == [] ==> CodePoint(n / 64, [0x80 + n % 64]) == n
    ensures forall lead :: CodePoint(lead, tail) == n / 64 ==> CodePoint(lead, tail + [0x80 + n % 64]) == n
  {
    var b := 0x80 + n % 64;
    assert Front(tail + [b]) == tail && Last(tail + [b]) == b;
    assert Front([b]) == [];
    assert n == n / 64 * 64 + n % 64;
  }

  lemma {:induction false} CharRoundTrip(c: char, rest: seq<Byte>)
    ensures DecodeChar(EncodeChar(c) + rest) == Some((c, |EncodeChar(c)|))
  {
    var n, b := c as int, EncodeChar(c) + rest;
    var n1 := n / 64;
    var n2 := n1 / 64;
    if 0x80 <= n < 0x800 {
      Continued(n, []);
      assert b[1..2] == [0x80 + n % 64];
    } else if 0x800 <= n < 0x1_0000 {
      Continued(n1, []);
      Continued(n, [0x80 + n1 % 64]);
      assert b[1..3] == [0x80 + n1 % 64] + [0x80 + n % 64];
    } else if 0x1_0000 <= n {
      Continued(n2, []);
      Continued(n1, [0x80 + n2 % 64]);
      Continued(n, [0x80 + n2 % 64] + [0x80 + n1 % 64]);
      assert b[1..4] == [0x80 + n2 % 64] + [0x80 + n1 % 64] + [0x80 + n % 64];
    }
  }

  lemma {:induction false} Utf8RoundTrip(s: string)
    ensures DecodeUtf8(EncodeUtf8(s)) == Some(s)
  {
    if s != [] {
      CharRoundTrip(s[0], EncodeUtf8(s[1..]));
      Utf8RoundTrip(s[1..]);
      var b := EncodeUtf8(s);
      assert b[|EncodeChar(s[0])|..] == EncodeUtf8(s[1..]);
      assert s == [s[0]] + s[1..];
    }
  }

  // ---- Base64url ----

  type Sextet = n: int | 0 <= n < 64

  function Letter(n: Sextet): char {
    if n < 26 then 'A' + n as char
    else if n < 52 then 'a' + (n - 26) as char
    else if n < 62 then '0' + (n - 52) as char
    else if n == 62 then '-' else '_'
  }

  /** The characters that need no escaping in a URL. */
  predicate UrlSafe(c: char) {
    'A' <= c <= 'Z' || 'a' <= c <= 'z' || '0' <= c <= '9' || c == '-' || c == '_'
  }

  /** Both alphabets are read; any other character has no value and is skipped. */
  function SextetOf(c: char): Option<Sextet> {
    if 'A' <= c <= 'Z' then Some((c - 'A') as int)
    else if 'a' <= c <= 'z' then Some((c - 'a') as int + 26)
    else if '0' <= c <= '9' then Some((c - '0') as int + 52)
    else if c == '-' || c == '+' then Some(62)
    else if c == '_' || c == '/' then Some(63)
    else None
  }

  /** The letters of one group of one, two or three bytes. */
  function Group(b: seq<Byte>): string
    requires 1 <= |b| <= 3
  {
    if |b| == 1 then [Letter(b[0] / 4), Letter(b[0] % 4 * 16)]
    else if |b| == 2 then [Letter(b[0] / 4), Letter(b[0] % 4 * 16 + b[1] / 16), Letter(b[1] % 16 * 4)]
    else [Letter(b[0] / 4), Letter(b[0] % 4 * 16 + b[1] / 16), Letter(b[1] % 16 * 4 + b[2] / 64), Letter(b[2] % 64)]
  }

  /** urlsafe_b64encode, with its padding. */
  function EncodeBase64(b: seq<Byte>): string {
    if b == [] then ""
    else if |b| == 1 then Group(b) + "=="
    else if |b| == 2 then Group(b) + "="
    else Group(b[..3]) + EncodeBase64(b[3..])
  }

  /** `s.rstrip("=")`. */
  function StripPadding(s: string): string {
    if s != [] && Last(s) == '=' then StripPadding(Front(s)) else s
  }

  /** `"=" * (-n % 4)`: what completes the last group of `n` letters. */
  function Padding(n: nat): string {
    seq((4 - n % 4) % 4, _ => '=')
  }

  function Repad(s: string): string {
    s + Padding(|s|)
  }

  /**
    The base64 reader, character by character: `quad` counts the sextets of the open group, `left`
    holds its unwritten bits, `pads` its padding so far. Padding that completes a group ends the
    input; an incomplete group is an error.
   */
  function DecodeBase64(s: string, quad: int, left: int, pads: nat): Option<seq<Byte>>
    requires 0 <= quad < 4 && 0 <= left < (if quad <= 1 then 64 else if quad == 2 then 16 else 4)
  {
    if s == [] then (if quad == 0 then Some([]) else None)
    else if s[0] == '=' then
      if quad < 2 then DecodeBase64(s[1..], quad, left, pads)
      else if quad + pads + 1 >= 4 then Some([])
      else DecodeBase64(s[1..], quad, left, pads + 1)
    else
      var value := SextetOf(s[0]);
      if value.None? then DecodeBase64(s[1..], quad, left, pads)
      else
        var v := value.value;
        if quad == 0 then DecodeBase64(s[1..], 1, v, 0)
        else if quad == 1 then Write(left * 4 + v / 16, DecodeBase64(s[1..], 2, v % 16, 0))
        else if quad == 2 then Write(left * 16 + v / 4, DecodeBase64(s[1..], 3, v % 4, 0))
        else Write(left * 64 + v, DecodeBase64(s[1..], 0, 0, 0))
  }

  function Write(b: Byte, rest: Option<seq<Byte>>): Option<seq<Byte>> {
    if rest.None? then None else Some([b] + rest.value)
  }

  lemma {:induction false} LetterRoundTrip(n: Sextet)
    ensures SextetOf(Letter(n)) == Some(n) && UrlSafe(Letter(n))
  {
  }

  /** Reading one letter from a given state. */
  lemma {:induction false} ReadLetter(n: Sextet, rest: string, quad: int, left: int, pads: nat)
    requires 0 <= quad < 4 && 0 <= left < (if quad <= 1 then 64 else if quad == 2 then 16 else 4)
    ensures DecodeBase64([Letter(n)] + rest, quad, left, pads) ==
            if quad == 0 then DecodeBase64(rest, 1, n, 0)
            else if quad == 1 then Write(left * 4 + n / 16, DecodeBase64(rest, 2, n % 16, 0))
            else if quad == 2 then Write(left * 16 + n / 4, DecodeBase64(rest, 3, n % 4, 0))
            else Write(left * 64 + n, DecodeBase64(rest, 0, 0, 0))
  {
    LetterRoundTrip(n);
    assert ([Letter(n)] + rest)[1..] == rest;
  }

  lemma {:induction false} ReadPadding(quad: int, left: int)
    requires 2 <= quad < 4 && 0 <= left < (if quad == 2 then 16 else 4)
    ensures DecodeBase64(if quad == 2 then "==" else "=", quad, left, 0) == Some([])
  {
    if quad == 2 {
      assert "=="[1..] == "=";
    }
  }

  /** The bits of three bytes, regrouped into four sextets and back. */
  lemma {:induction false} Regroup(b0: Byte, b1: Byte, b2: Byte, x: int, y: int, z: int, w: int)
    requires x == b0 / 4 && y == b0 % 4 * 16 + b1 / 16 && z == b1 % 16 * 4 + b2 / 64 && w == b2 % 64
    ensures 0 <= x < 64 && 0 <= y < 64 && 0 <= z < 64 && 0 <= w < 64
    ensures x * 4 + y / 16 == b0 && y % 16 * 16 + z / 4 == b1 && z % 4 * 64 + w == b2
  {
    assert y / 16 == b0 % 4 && y % 16 == b1 / 16;
    assert z / 4 == b1 % 16 && z % 4 == b2 / 64;
  }

  lemma {:induction false} ReadGroupOfOne(b0: Byte)
    ensures DecodeBase64(Group([b0]) + "==", 0, 0, 0) == Some([b0])
  {
    var x, y := b0 / 4, b0 % 4 * 16;
    Regroup(b0, 0, 0, x, y, 0, 0);
    assert Group([b0]) + "==" == [Letter(x)] + ([Letter(y)] + "==");
    ReadLetter(x, [Letter(y)] + "==", 0, 0, 0);
    ReadLetter(y, "==", 1, x, 0);
    ReadPadding(2, y % 16);
    assert [b0] + [] == [b0];
  }

  lemma {:induction false} ReadGroupOfTwo(b0: Byte, b1: Byte)
    ensures DecodeBase64(Group([b0, b1]) + "=", 0, 0, 0) == Some([b0, b1])
  {
    var x, y, z := b0 / 4, b0 % 4 * 16 + b1 / 16, b1 % 16 * 4;
    Regroup(b0, b1, 0, x, y, z, 0);
    assert Group([b0, b1]) + "=" == [Letter(x)] + ([Letter(y)] + ([Letter(z)] + "="));
    ReadLetter(x, [Letter(y)] + ([Letter(z)] + "="), 0, 0, 0);
    ReadLetter(y, [Letter(z)] + "=", 1, x, 0);
    ReadLetter(z, "=", 2, y % 16, 0);
    ReadPadding(3, z % 4);
    assert [b0] + ([b1] + []) == [b0, b1];
  }

  lemma {:induction false} ReadGroupOfThree(b0: Byte, b1: Byte, b2: Byte, rest: string)
    ensures DecodeBase64(Group([b0, b1, b2]) + rest, 0, 0, 0) ==
            Write(b0, Write(b1, Write(b2, DecodeBase64(rest, 0, 0, 0))))
  {
    var x, y, z, w := b0 / 4, b0 % 4 * 16 + b1 / 16, b1 % 16 * 4 + b2 / 64, b2 % 64;
    Regroup(b0, b1, b2, x, y, z, w);
    assert Group([b0, b1, b2]) + rest == [Letter(x)] + ([Letter(y)] + ([Letter(z)] + ([Letter(w)] + rest)));
    ReadFour(x, y, z, w, rest);
  }

  lemma {:induction false} ReadFour(x: Sextet, y: Sextet, z: Sextet, w: Sextet, rest: string)
    ensures DecodeBase64([Letter(x)] + ([Letter(y)] + ([Letter(z)] + ([Letter(w)] + rest))), 0, 0, 0) ==
            Write(x * 4 + y / 16, Write(y % 16 * 16 + z / 4, Write(z % 4 * 64 + w, DecodeBase64(rest, 0, 0, 0))))
  {
    var tail := [Letter(z)] + ([Letter(w)] + rest);
    ReadLetter(x, [Letter(y)] + tail, 0, 0, 0);
    ReadLetter(y, tail, 1, x, 0);
    ReadLastTwo(z, w, rest, y % 16);
  }

  lemma {:induction false} ReadLastTwo(z: Sextet, w: Sextet, rest: string, left: int)
    requires 0 <= left < 16
    ensures DecodeBase64([Letter(z)] + ([Letter(w)] + rest), 2, left, 0) ==
            Write(left * 16 + z / 4, Write(z % 4 * 64 + w, DecodeBase64(rest, 0, 0, 0)))
  {
    ReadLetter(z, [Letter(w)] + rest, 2, left, 0);
    ReadLetter(w, rest, 3, z % 4, 0);
  }

  lemma {:induction false} Base64RoundTrip(b: seq<Byte>)
    ensures DecodeBase64(EncodeBase64(b), 0, 0, 0) == Some(b)
  {
    if |b| == 1 {
      ReadGroupOfOne(b[0]);
      assert b == [b[0]];
    } else if |b| == 2 {
      ReadGroupOfTwo(b[0], b[1]);
      assert b == [b[0], b[1]];
    } else if |b| > 2 {
      Base64RoundTrip(b[3..]);
      FirstThree(b);
      ReadGroupOfThree(b[0], b[1], b[2], EncodeBase64(b[3..]));
    }
  }

  lemma {:induction false} FirstThree(b: seq<Byte>)
    requires |b| > 2
    ensures b[..3] == [b[0], b[1], b[2]]
    ensures b == [b[0]] + ([b[1]] + ([b[2]] + b[3..]))
  {
  }

  lemma {:induction false} GroupLetters(b: seq<Byte>)
    requires 1 <= |b| <= 3
    ensures |Group(b)| == |b| + 1
    ensures forall i :: 0 <= i < |Group(b)| ==> UrlSafe(Group(b)[i])
  {
    forall n: Sextet
      ensures UrlSafe(Letter(n))
    {
      LetterRoundTrip(n);
    }
  }

  /** A padded encoding is letters, then what completes the last group. */
  lemma {:induction false} EncodingShape(b: seq<Byte>) returns (letters: string)
    ensures EncodeBase64(b) == letters + Padding(|letters|)
    ensures forall i :: 0 <= i < |letters| ==> UrlSafe(letters[i])
    ensures |letters| % 4 != 1
  {
    if |b| == 0 {
      letters := "";
    } else if |b| <= 2 {
      letters := Group(b);
      GroupLetters(b);
      assert Padding(2) == "==" && Padding(3) == "=";
    } else {
      var more := EncodingShape(b[3..]);
      GroupLetters(b[..3]);
      letters := Group(b[..3]) + more;
      FullGroup(Group(b[..3]), more);
    }
  }

  /** A full group in front changes neither the padding nor the remainder. */
  lemma {:induction false} FullGroup(group: string, more: string)
    requires |group| == 4
    ensures |group + more| % 4 == |more| % 4
    ensures group + more + Padding(|group + more|) == group + (more + Padding(|more|))
  {
  }

  lemma {:induction false} StripLetters(letters: string, n: nat)
    requires forall i :: 0 <= i < |letters| ==> letters[i] != '='
    ensures StripPadding(letters + seq(n, _ => '=')) == letters
  {
    var padded := letters + seq(n, _ => '=');
    if n == 0 {
      assert padded == letters;
    } else {
      assert Front(padded) == letters + seq(n - 1, _ => '=');
      StripLetters(letters, n - 1);
    }
  }

  /** Stripped padding is always restored exactly: an unpadded length is never 1 mod 4. */
  lemma {:induction false} PaddingIsRestored(b: seq<Byte>)
    ensures Repad(StripPadding(EncodeBase64(b))) == EncodeBase64(b)
    ensures |StripPadding(EncodeBase64(b))| % 4 != 1
    ensures forall i :: 0 <= i < |StripPadding(EncodeBase64(b))| ==> UrlSafe(StripPadding(EncodeBase64(b))[i])
  {
    var letters := EncodingShape(b);
    StripLetters(letters, (4 - |letters| % 4) % 4);
    assert EncodeBase64(b) == letters + seq((4 - |letters| % 4) % 4, _ => '=');
  }

  // ---- The payload ----

  /** A UUID as its 32 lower-case hexadecimal digits. */
  type Uuid = s: string | |s| == 32 && AllHex(s) witness "00000000000000000000000000000000"

  predicate IsHex(c: char) {
    '0' <= c <= '9' || 'a' <= c <= 'f'
  }

  predicate AllHex(s: string) {
    forall i :: 0 <= i < |s| ==> IsHex(s[i])
  }

  /** `str(row_id)`: groups of 8, 4, 4, 4 and 12 digits. */
  function UuidText(u: Uuid): string {
    u[..8] + "-" + u[8..12] + "-" + u[12..16] + "-" + u[16..20] + "-" + u[20..]
  }

  function WithoutDashes(s: string): string {
    if s == [] then [] else (if s[0] == '-' then [] else [s[0]]) + WithoutDashes(s[1..])
  }

  function Lower(s: string): string {
    seq(|s|, i requires 0 <= i < |s| => if 'A' <= s[i] <= 'Z' then s[i] - 'A' + 'a' else s[i])
  }

  /** `uuid.UUID(text)`: dashes anywhere, 32 hexadecimal digits of either case. */
  function ParseUuid(text: string): Option<Uuid> {
    var digits := Lower(WithoutDashes(text));
    if |digits| == 32 && AllHex(digits) then Some(digits) else None
  }

  lemma {:induction false} WithoutDashesAppend(s: string, t: string)
    ensures WithoutDashes(s + t) == WithoutDashes(s) + WithoutDashes(t)
  {
    if s == [] {
      assert s + t == t;
    } else {
      assert (s + t)[1..] == s[1..] + t;
      WithoutDashesAppend(s[1..], t);
    }
  }

  lemma {:induction false} WithoutDashesHex(s: string)
    requires AllHex(s)
    ensures WithoutDashes(s) == s
  {
    if s != [] {
      WithoutDashesHex(s[1..]);
    }
  }

  lemma {:induction false} DashedGroup(group: string, text: string)
    requires AllHex(group)
    ensures WithoutDashes(group + "-" + text) == group + WithoutDashes(text)
  {
    WithoutDashesHex(group);
    WithoutDashesAppend(group + "-", text);
    WithoutDashesAppend(group, "-");
    assert WithoutDashes("-") == [];
  }

  lemma {:induction false} DashedGroups(a: string, b: string, c: string, d: string, e: string)
    requires AllHex(a) && AllHex(b) && AllHex(c) && AllHex(d) && AllHex(e)
    ensures WithoutDashes(a + "-" + (b + "-" + (c + "-" + (d + "-" + e)))) == a + (b + (c + (d + e)))
  {
    DashedGroup(a, b + "-" + (c + "-" + (d + "-" + e)));
    DashedGroup(b, c + "-" + (d + "-" + e));
    DashedGroup(c, d + "-" + e);
    DashedGroup(d, e);
    WithoutDashesHex(e);
  }

  lemma {:induction false} UuidHasNoBar(u: Uuid)
    ensures '|' !in UuidText(u)
  {
    assert forall i :: 0 <= i < 32 ==> u[i] != '|';
  }

  lemma {:induction false} UuidRoundTrip(u: Uuid)
    ensures ParseUuid(UuidText(u)) == Some(u)
  {
    var a, b, c, d, e := u[..8], u[8..12], u[12..16], u[16..20], u[20..];
    assert UuidText(u) == a + "-" + (b + "-" + (c + "-" + (d + "-" + e)));
    DashedGroups(a, b, c, d, e);
    assert a + (b + (c + (d + e))) == u;
    assert Lower(u) == u;
  }

  /** The sort value of a row. */
  datatype SortValue = Stamp(at: Moment) | Text(text: string) | Number(n: int)

  function NumberText(n: int): string {
    if n < 0 then "-" + Decimal(-n) else Decimal(n)
  }

  function ParseNumber(s: string): Option<int> {
    if s != [] && s[0] == '-' then
      if |s| > 1 && AllDigits(s[1..]) then Some(0 - ValueOf(s[1..])) else None
    else if s != [] && AllDigits(s) then Some(ValueOf(s)) else None
  }

  lemma {:induction false} NumberRoundTrip(n: int)
    ensures ParseNumber(NumberText(n)) == Some(n)
  {
    var k := if n < 0 then -n else n;
    DecimalValue(k);
    if n < 0 {
      assert ("-" + Decimal(k))[1..] == Decimal(k);
    } else {
      assert IsDigit(Decimal(k)[0]);
    }
  }

  function Kind(v: SortValue): string {
    match v case Stamp(_) => "dt" case Text(_) => "s" case Number(_) => "i"
  }

  function ValueText(v: SortValue): string {
    match v case Stamp(at) => IsoText(at) case Text(text) => text case Number(n) => NumberText(n)
  }

  function ParseValue(kind: string, text: string): Option<SortValue> {
    if kind == "dt" then
      var at := ReadMoment(text);
      if at.Failure? then None else Some(Stamp(at.value))
    else if kind == "i" then
      var n := ParseNumber(text);
      if n.None? then None else Some(Number(n.value))
    else if kind == "s" then Some(Text(text))
    else None
  }

  function IndexOfBar(s: string): (i: nat)
    ensures i <= |s| && (forall k :: 0 <= k < i ==> s[k] != '|') && (i < |s| ==> s[i] == '|')
  {
    if s == [] || s[0] == '|' then 0 else 1 + IndexOfBar(s[1..])
  }

  /** `s.split("|", splits)`. */
  function SplitBar(s: string, splits: nat): seq<string> {
    var i := IndexOfBar(s);
    if splits == 0 || i == |s| then [s] else [s[..i]] + SplitBar(s[i + 1..], splits - 1)
  }

  lemma {:induction false} SplitHead(head: string, rest: string, splits: nat)
    requires '|' !in head && splits > 0
    ensures SplitBar(head + "|" + rest, splits) == [head] + SplitBar(rest, splits - 1)
  {
    var s := head + "|" + rest;
    var i := IndexOfBar(s);
    assert s[|head|] == '|';
    assert i >= |head| by {
      assert forall k :: 0 <= k < |head| ==> s[k] == head[k];
    }
    assert s[..i] == head && s[i + 1..] == rest;
  }

  function Payload(v: SortValue, id: Uuid): string {
    "v1" + "|" + (Kind(v) + "|" + (UuidText(id) + "|" + ValueText(v)))
  }

  /** The parts of a payload, checked: version, kind, id and value. */
  function ParsePayload(raw: string): Option<(SortValue, Uuid)> {
    var parts := SplitBar(raw, 3);
    if |parts| != 4 || parts[0] != "v1" then None
    else
      var id, v := ParseUuid(parts[2]), ParseValue(parts[1], parts[3]);
      if id.None? || v.None? then None else Some((v.value, id.value))
  }

  function EncodeText(s: string): string {
    StripPadding(EncodeBase64(EncodeUtf8(s)))
  }

  function DecodeText(token: string): Option<string> {
    var bytes := DecodeBase64(Repad(token), 0, 0, 0);
    if bytes.None? then None else DecodeUtf8(bytes.value)
  }

  /** encode_cursor. */
  function EncodeCursor(v: SortValue, id: Uuid): string {
    EncodeText(Payload(v, id))
  }

  /** decode_cursor; None is the invalid-cursor error. */
  function DecodeCursor(token: string): Option<(SortValue, Uuid)> {
    var raw := DecodeText(token);
    if raw.None? then None else ParsePayload(raw.value)
  }

  lemma {:induction false} TextRoundTrip(s: string)
    ensures DecodeText(EncodeText(s)) == Some(s)
    ensures forall i :: 0 <= i < |EncodeText(s)| ==> UrlSafe(EncodeText(s)[i])
  {
    PaddingIsRestored(EncodeUtf8(s));
    Base64RoundTrip(EncodeUtf8(s));
    Utf8RoundTrip(s);
  }

  lemma {:induction false} PayloadSplits(v: SortValue, id: Uuid)
    ensures SplitBar(Payload(v, id), 3) == ["v1"] + ([Kind(v)] + ([UuidText(id)] + [ValueText(v)]))
  {
    UuidHasNoBar(id);
    assert '|' !in "v1" && '|' !in Kind(v);
    SplitThree("v1", Kind(v), UuidText(id), ValueText(v));
  }

  /** Three splits leave the rest alone, separators and all. */
  lemma {:induction false} SplitThree(a: string, b: string, c: string, rest: string)
    requires '|' !in a && '|' !in b && '|' !in c
    ensures SplitBar(a + "|" + (b + "|" + (c + "|" + rest)), 3) == [a] + ([b] + ([c] + [rest]))
  {
    SplitHead(a, b + "|" + (c + "|" + rest), 3);
    SplitHead(b, c + "|" + rest, 2);
    SplitHead(c, rest, 1);
    assert SplitBar(rest, 0) == [rest];
  }

  lemma {:induction false} FourParts(a: string, b: string, c: string, d: string, parts: seq<string>)
    requires parts == [a] + ([b] + ([c] + [d]))
    ensures |parts| == 4 && parts[0] == a && parts[1] == b && parts[2] == c && parts[3] == d
  {
  }

  lemma {:induction false} ValueRoundTrip(v: SortValue)
    ensures ParseValue(Kind(v), ValueText(v)) == Some(v)
  {
    match v
    case Stamp(at) => MomentRoundTrip(at);
    case Text(_) =>
    case Number(n) => NumberRoundTrip(n);
  }

  /** Any cursor - also one whose text contains the separator - comes back from its token. */
  lemma {:induction false} CursorRoundTrip(v: SortValue, id: Uuid)
    ensures DecodeCursor(EncodeCursor(v, id)) == Some((v, id))
    ensures forall i :: 0 <= i < |EncodeCursor(v, id)| ==> UrlSafe(EncodeCursor(v, id)[i])
  {
    var payload := Payload(v, id);
    TextRoundTrip(payload);
    assert ParsePayload(payload) == Some((v, id)) by {
      PayloadSplits(v, id);
      FourParts("v1", Kind(v), UuidText(id), ValueText(v), SplitBar(payload, 3));
      UuidRoundTrip(id);
      ValueRoundTrip(v);
    }
  }
}
