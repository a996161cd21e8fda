/** Timestamps and their ISO 8601 text, as Python's `isoformat` writes it. */
module IsoTime {
  import opened Base
  import opened Digits

  datatype Clock = Clock(hour: nat, minute: nat, second: nat, micro: nat)

  /** An offset from UTC of less than a day, by sign and size. */
  datatype Offset = Offset(west: bool, size: Clock)

  /** Date and clock reading, with the offset unless the timestamp is naive. */
  datatype DateTime = DateTime(year: nat, month: nat, day: nat, clock: Clock, offset: Option<Offset>)

  type Moment = d: DateTime | Valid(d) witness DateTime(1970, 1, 1, Clock(0, 0, 0, 0), None)

  const MICROS_PER_SECOND: nat := 1_000_000

  predicate LeapYear(year: nat) {
    year % 4 == 0 && (year % 100 != 0 || year % 400 == 0)
  }

  function DaysInMonth(year: nat, month: nat): nat {
    if month == 2 then (if LeapYear(year) then 29 else 28)
    else if month in {4, 6, 9, 11} then 30 else 31
  }

  predicate ClockValid(c: Clock) {
    c.hour < 24 && c.minute < 60 && c.second < 60 && c.micro < MICROS_PER_SECOND
  }

  predicate Valid(d: DateTime) {
    && 1 <= d.year <= 9999 && 1 <= d.month <= 12 && 1 <= d.day <= DaysInMonth(d.year, d.month) && ClockValid(d.clock)
    && (d.offset.Some? ==>
          ClockValid(d.offset.value.size) && (d.offset.value.west ==> d.offset.value.size != Clock(0, 0, 0, 0)))
  }

  // ---- Writing ----

  function FractionText(micro: nat, rest: string): string {
    if micro > 0 then "." + (Padded(micro, 6) + rest) else rest
  }

  /** Seconds and microseconds, written only when needed unless `always`. */
  function SecondsText(second: nat, micro: nat, always: bool, rest: string): string {
    if always || second > 0 || micro > 0 then ":" + (Padded(second, 2) + FractionText(micro, rest)) else rest
  }

  function ClockText(c: Clock, always: bool, rest: string): string {
    Padded(c.hour, 2) + (":" + (Padded(c.minute, 2) + SecondsText(c.second, c.micro, always, rest)))
  }

  function OffsetText(offset: Option<Offset>): string {
    if offset.None? then ""
    else [if offset.value.west then '-' else '+'] + ClockText(offset.value.size, false, "")
  }

  /** `isoformat()`. */
  function IsoText(d: DateTime): string {
    Padded(d.year, 4) + ("-" + (Padded(d.month, 2) + ("-" + (Padded(d.day, 2) + ("T" +
      ClockText(d.clock, true, OffsetText(d.offset)))))))
  }

  // ---- Reading ----

  /** A number of exactly `width` digits, and what follows it. */
  function ReadNumber(s: string, width: nat): Result<(nat, string)> {
    if |s| >= width && AllDigits(s[..width]) then Success((ValueOf(s[..width]), s[width..])) else Failure(CursorInvalid)
  }

  function ReadChar(s: string, c: char): Result<string> {
    if s != [] && s[0] == c then Success(s[1..]) else Failure(CursorInvalid)
  }

  function ReadFraction(s: string): Result<(nat, string)> {
    if s == [] || s[0] != '.' then Success((0, s)) else ReadNumber(s[1..], 6)
  }

  function ReadSeconds(s: string): Result<(nat, nat, string)> {
    if s == [] || s[0] != ':' then Success((0, 0, s))
    else
      var (second, s1) :- ReadNumber(s[1..], 2);
      var (micro, s2) :- ReadFraction(s1);
      Success((second, micro, s2))
  }

  /** A clock reading and what follows it. */
  function ReadClock(s: string): Result<(Clock, string)> {
    var (hour, s1) :- ReadNumber(s, 2);
    var s2 :- ReadChar(s1, ':');
    var (minute, s3) :- ReadNumber(s2, 2);
    var (second, micro, s4) :- ReadSeconds(s3);
    Success((Clock(hour, minute, second, micro), s4))
  }

  function ReadOffset(s: string): Result<Option<Offset>> {
    if s == [] then Success(None)
    else if s[0] != '+' && s[0] != '-' then Failure(CursorInvalid)
    else
      var (size, rest) :- ReadClock(s[1..]);
      if rest != [] then Failure(CursorInvalid)
      else Success(Some(Offset(s[0] == '-' && size != Clock(0, 0, 0, 0), size)))
  }

  /** `datetime.fromisoformat(s)`, for the texts `isoformat` writes. */
  function ReadMoment(s: string): Result<Moment> {
    var (year, s1) :- ReadNumber(s, 4);
    var s2 :- ReadChar(s1, '-');
    var (month, s3) :- ReadNumber(s2, 2);
    var s4 :- ReadChar(s3, '-');
    var (day, s5) :- ReadNumber(s4, 2);
    var s6 :- ReadChar(s5, 'T');
    var (clock, s7) :- ReadClock(s6);
    var offset :- ReadOffset(s7);
    var d := DateTime(year, month, day, clock, offset);
    if Valid(d) then Success(d) else Failure(CursorInvalid)
  }

  // ---- Reading back what was written ----

  function Power(width: nat): nat {
    if width == 0 then 1 else 10 * Power(width - 1)
  }

  lemma {:induction false} DecimalLength(n: nat, width: nat)
    requires n < Power(width) && width > 0
    ensures 1 <= |Decimal(n)| <= width
  {
    if n >= 10 {
      assert Power(1) == 10 * Power(0);
      assert n / 10 < Power(width - 1);
      DecimalLength(n / 10, width - 1);
    }
  }

  lemma {:induction false} ReadPadded(n: nat, width: nat, rest: string)
    requires n < Power(width) && width > 0
    ensures ReadNumber(Padded(n, width) + rest, width) == Success((n, rest))
  {
    DecimalLength(n, width);
    PaddedValue(n, width);
    var s := Padded(n, width) + rest;
    assert |Padded(n, width)| == width;
    assert s[..width] == Padded(n, width) && s[width..] == rest;
  }

  lemma {:induction false} Powers()
    ensures Power(2) == 100 && Power(4) == 10_000 && Power(6) == 1_000_000
  {
    assert Power(1) == 10 * Power(0);
    assert Power(3) == 10 * Power(2);
    assert Power(5) == 10 * Power(4);
  }

  lemma {:induction false} ReadSymbol(c: char, rest: string)
    ensures ReadChar([c] + rest, c) == Success(rest)
  {
  }

  /** What follows a clock reading cannot be mistaken for more of it. */
  predicate Separate(rest: string) {
    rest == [] || rest[0] == '+' || rest[0] == '-'
  }

  lemma {:induction false} FractionRoundTrip(micro: nat, rest: string)
    requires micro < MICROS_PER_SECOND && Separate(rest)
    ensures ReadFraction(FractionText(micro, rest)) == Success((micro, rest))
  {
    Powers();
    if micro > 0 {
      assert FractionText(micro, rest)[1..] == Padded(micro, 6) + rest;
      ReadPadded(micro, 6, rest);
    }
  }

  lemma {:induction false} SecondsRoundTrip(second: nat, micro: nat, always: bool, rest: string)
    requires second < 60 && micro < MICROS_PER_SECOND && Separate(rest)
    ensures ReadSeconds(SecondsText(second, micro, always, rest)) == Success((second, micro, rest))
  {
    Powers();
    if always || second > 0 || micro > 0 {
      var s := SecondsText(second, micro, always, rest);
      assert s[0] == ':' && s[1..] == Padded(second, 2) + FractionText(micro, rest);
      ReadPadded(second, 2, FractionText(micro, rest));
      FractionRoundTrip(micro, rest);
    }
  }

  lemma {:induction false} ClockRoundTrip(c: Clock, always: bool, rest: string)
    requires ClockValid(c) && Separate(rest)
    ensures ReadClock(ClockText(c, always, rest)) == Success((c, rest))
  {
    Powers();
    var seconds := SecondsText(c.second, c.micro, always, rest);
    ReadPadded(c.hour, 2, ":" + (Padded(c.minute, 2) + seconds));
    ReadSymbol(':', Padded(c.minute, 2) + seconds);
    ReadPadded(c.minute, 2, seconds);
    SecondsRoundTrip(c.second, c.micro, always, rest);
  }

  lemma {:induction false} OffsetRoundTrip(offset: Option<Offset>)
    requires offset.Some? ==>
      ClockValid(offset.value.size) && (offset.value.west ==> offset.value.size != Clock(0, 0, 0, 0))
    ensures ReadOffset(OffsetText(offset)) == Success(offset) && Separate(OffsetText(offset))
  {
    if offset.Some? {
      ClockRoundTrip(offset.value.size, false, "");
      assert OffsetText(offset)[1..] == ClockText(offset.value.size, false, "");
    }
  }

  /** Every timestamp comes back from its text. */
  lemma {:induction false} MomentRoundTrip(d: Moment)
    ensures ReadMoment(IsoText(d)) == Success(d)
  {
    Powers();
    OffsetRoundTrip(d.offset);
    var zone := OffsetText(d.offset);
    var clock := ClockText(d.clock, true, zone);
    ClockRoundTrip(d.clock, true, zone);
    var s5 := "T" + clock;
    var s4 := Padded(d.day, 2) + s5;
    var s3 := "-" + s4;
    var s2 := Padded(d.month, 2) + s3;
    var s1 := "-" + s2;
    ReadPadded(d.year, 4, s1);
    ReadSymbol('-', s2);
    ReadPadded(d.month, 2, s3);
    ReadSymbol('-', s4);
    ReadPadded(d.day, 2, s5);
    ReadSymbol('T', clock);
  }
}
