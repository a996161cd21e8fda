/** The texts themselves: what tokens, timestamps and numbers look like, not only that they come back. */
module FormatLaws {
  import opened Base
  import opened Digits
  import opened IsoTime
  import opened Cursor

  // ---- Base64url ----

  /** The alphabet of section 5 of RFC 4648: upper case, lower case, digits, then minus and underline. */
  lemma {:induction false} LettersAreAlphabet(n: Sextet)
    ensures n < 26 ==> Letter(n) as int == 'A' as int + n
    ensures 26 <= n < 52 ==> Letter(n) as int == 'a' as int + n - 26
    ensures 52 <= n < 62 ==> Letter(n) as int == '0' as int + n - 52
    ensures n == 62 ==> Letter(n) == '-'
    ensures n == 63 ==> Letter(n) == '_'
  {
  }

  /** Three bytes are one 24-bit number, written as its four base-64 digits. */
  lemma {:induction false} GroupsAreDigits(b0: Byte, b1: Byte, b2: Byte, rest: seq<Byte>)
    ensures var v := (b0 * 256 + b1) * 256 + b2;
            EncodeBase64([b0, b1, b2] + rest) ==
            [Letter(v / 64 / 64 / 64 % 64), Letter(v / 64 / 64 % 64), Letter(v / 64 % 64), Letter(v % 64)] + EncodeBase64(rest)
  {
    var v, b := (b0 * 256 + b1) * 256 + b2, [b0, b1, b2] + rest;
    assert b[..3] == [b0, b1, b2] && b[3..] == rest;
    Sextets(b0, b1, b2, v);
  }

  lemma {:induction false} Sextets(b0: Byte, b1: Byte, b2: Byte, v: nat)
    requires v == (b0 * 256 + b1) * 256 + b2
    ensures v % 64 == b2 % 64 && v / 64 % 64 == b1 % 16 * 4 + b2 / 64
    ensures v / 64 / 64 % 64 == b0 % 4 * 16 + b1 / 16 && v / 64 / 64 / 64 % 64 == b0 / 4
  {
    assert v / 64 == (b0 * 256 + b1) * 4 + b2 / 64;
    assert v / 64 / 64 == b0 * 16 + b1 / 16;
    assert v / 64 / 64 / 64 == b0 / 4;
  }

  /** One or two bytes left over: their digits, then padding. */
  lemma {:induction false} TailsAreDigits(b0: Byte, b1: Byte)
    ensures EncodeBase64([b0]) == [Letter(b0 / 4), Letter(b0 * 16 % 64)] + "=="
    ensures var v := (b0 * 256 + b1) * 4;
            EncodeBase64([b0, b1]) == [Letter(v / 64 / 64 % 64), Letter(v / 64 % 64), Letter(v % 64)] + "="
  {
    var v := (b0 * 256 + b1) * 4;
    assert v / 64 == b0 * 16 + b1 / 16;
    assert v / 64 / 64 == b0 / 4;
    assert v % 64 == b1 % 16 * 4;
    assert b0 * 16 % 64 == b0 % 4 * 16;
  }

  // ---- UTF-8 ----

  /** One character of each length. */
  lemma {:induction false} Utf8Samples()
    ensures EncodeChar('a') == [0x61] && EncodeChar('\U{E9}') == [0xC3, 0xA9]
    ensures EncodeChar('\U{20AC}') == [0xE2, 0x82, 0xAC] && EncodeChar('\U{1F600}') == [0xF0, 0x9F, 0x98, 0x80]
  {
  }

  // ---- Cursor payloads ----

  /** Version, kind, id and value, separated by bars. */
  lemma {:induction false} PayloadsLookSo(id: Uuid, at: Moment, text: string, n: int)
    ensures Payload(Stamp(at), id) == "v1|" + ("dt" + "|" + (UuidText(id) + "|" + IsoText(at)))
    ensures Payload(Text(text), id) == "v1|" + ("s" + "|" + (UuidText(id) + "|" + text))
    ensures Payload(Number(n), id) == "v1|" + ("i" + "|" + (UuidText(id) + "|" + if n < 0 then "-" + Decimal(-n) else Decimal(n)))
  {
    assert "v1" + "|" == "v1|";
  }

  /** The digits of an id in groups of 8, 4, 4, 4 and 12. */
  lemma {:induction false} UuidsLookSo(u: Uuid)
    ensures var s := UuidText(u);
            && |s| == 36 && s[8] == s[13] == s[18] == s[23] == '-'
            && s[..8] == u[..8] && s[9..13] == u[8..12] && s[14..18] == u[12..16] && s[19..23] == u[16..20] && s[24..] == u[20..]
  {
  }

  // ---- Numbers and timestamps ----

  /** The digits of `n`, with no zero in front. */
  lemma {:induction false} DecimalsLookSo(n: nat)
    ensures AllDigits(Decimal(n)) && ValueOf(Decimal(n)) == n
    ensures Decimal(n) != [] && (n > 0 ==> Decimal(n)[0] != '0')
    ensures n < 10 ==> |Decimal(n)| == 1
  {
    DecimalValue(n);
    if n >= 10 {
      DecimalsLookSo(n / 10);
    }
  }

  /** A number of at most `width` digits is written with exactly `width`. */
  lemma {:induction false} PaddedLooksSo(n: nat, width: nat)
    requires width > 0 && n < Power(width)
    ensures |Padded(n, width)| == width && AllDigits(Padded(n, width)) && ValueOf(Padded(n, width)) == n
  {
    DecimalLength(n, width);
    PaddedValue(n, width);
  }

  lemma {:induction false} PairPlaces(a: string, b: string, rest: string)
    requires |a| == 2 && |b| == 2
    ensures var s := a + (":" + (b + rest)); |s| >= 5 && s[..2] == a && s[2] == ':' && s[3..5] == b && s[5..] == rest
  {
  }

  lemma {:induction false} TailPlaces(a: string, rest: string)
    requires |a| == 2
    ensures var s := ":" + (a + rest); |s| >= 3 && s[0] == ':' && s[1..3] == a && s[3..] == rest
  {
  }

  lemma {:induction false} DatePlaces(y: string, m: string, d: string, rest: string)
    requires |y| == 4 && |m| == 2 && |d| == 2
    ensures var s := y + ("-" + (m + ("-" + (d + ("T" + rest)))));
            && |s| >= 11 && s[..4] == y && s[4] == s[7] == '-' && s[5..7] == m && s[8..10] == d && s[10] == 'T' && s[11..] == rest
  {
    var s := y + ("-" + (m + ("-" + (d + ("T" + rest)))));
    assert s[5..] == m + ("-" + (d + ("T" + rest)));
    assert s[8..] == d + ("T" + rest);
  }

  /** `HH:MM`, then seconds unless they may be left out, then six digits of microseconds unless zero. */
  lemma {:induction false} ClocksLookSo(c: Clock, always: bool, rest: string)
    requires ClockValid(c)
    ensures var s := ClockText(c, always, rest);
            |s| >= 5 && s[..2] == Padded(c.hour, 2) && s[2] == ':' && s[3..5] == Padded(c.minute, 2)
    ensures var tail := ClockText(c, always, rest)[5..];
            && (!always && c.second == 0 && c.micro == 0 ==> tail == rest)
            && (always || c.second > 0 || c.micro > 0 ==>
                  && |tail| >= 3 && tail[0] == ':' && tail[1..3] == Padded(c.second, 2)
                  && tail[3..] == if c.micro == 0 then rest else "." + (Padded(c.micro, 6) + rest))
  {
    Powers();
    PaddedLooksSo(c.hour, 2);
    PaddedLooksSo(c.minute, 2);
    PaddedLooksSo(c.second, 2);
    PairPlaces(Padded(c.hour, 2), Padded(c.minute, 2), SecondsText(c.second, c.micro, always, rest));
    TailPlaces(Padded(c.second, 2), FractionText(c.micro, rest));
  }

  /** `YYYY-MM-DDTHH:MM:SS`, the fraction, and the offset by sign and size. */
  lemma {:induction false} TimestampsLookSo(d: Moment)
    ensures var s := IsoText(d);
            && |s| >= 11 && s[..4] == Padded(d.year, 4) && s[4] == s[7] == '-' && s[5..7] == Padded(d.month, 2)
            && s[8..10] == Padded(d.day, 2) && s[10] == 'T' && s[11..] == ClockText(d.clock, true, OffsetText(d.offset))
  {
    Powers();
    PaddedLooksSo(d.year, 4);
    PaddedLooksSo(d.month, 2);
    PaddedLooksSo(d.day, 2);
    DatePlaces(Padded(d.year, 4), Padded(d.month, 2), Padded(d.day, 2), ClockText(d.clock, true, OffsetText(d.offset)));
  }

  /** Nothing for a naive timestamp, otherwise sign and size. */
  lemma {:induction false} OffsetsLookSo(offset: Offset)
    ensures OffsetText(None) == ""
    ensures OffsetText(Some(offset)) == [if offset.west then '-' else '+'] + ClockText(offset.size, false, "")
  {
  }
}
