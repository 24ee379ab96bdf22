/** The expiry stamp format `"%Y-%m-%d %H:%M:%S"`, shared by the writer
    (`strftime`) and the reader (`datetime.strptime`).

    The writer always produces the fixed-width 19-character form
    `YYYY-MM-DD hh:mm:ss`. The reader is CPython's `_strptime`, which is more
    lenient than that form: it compiles the pattern into a regular expression
    in which `%m`, `%d`, `%H`, `%M` and `%S` take one or two digits, `%d`
    also takes a space followed by a digit, and the literal space becomes
    "one or more whitespace characters". A match that stops before the end of
    the text is the error "unconverted data remains"; a match whose fields do
    not form a real date-time is rejected when the `datetime` is built. */
module StampCodec {
  import opened Results
  import opened Calendar
  import opened DateTimes

  /** The three ways `strptime` rejects a text, all `ValueError` in Python. */
  datatype StampError =
    | DoesNotMatchFormat       // the pattern's regular expression does not match
    | UnconvertedDataRemains   // it matches a proper prefix only
    | FieldOutOfRange          // year 0, day past the month's end, second 60 or 61

  /** The fields the pattern's regular expression captures, before any
      calendar check. */
  datatype Fields = Fields(year: int, month: int, day: int, hour: int, minute: int, second: int)

  const StampLength: nat := 19

  // ---------------------------------------------------------------------
  // Digits

  predicate IsDigit(c: char) {
    '0' <= c <= '9'
  }

  predicate AllDigits(s: string) {
    forall i :: 0 <= i < |s| ==> IsDigit(s[i])
  }

  function DigitValue(c: char): int
    requires IsDigit(c)
  {
    c as int - '0' as int
  }

  function DigitChar(n: int): (c: char)
    requires 0 <= n <= 9
    ensures IsDigit(c) && DigitValue(c) == n
  {
    ('0' as int + n) as char
  }

  /** The value of a decimal numeral, as Python's `int()` reads it. */
  function NumberValue(s: string): int
    requires AllDigits(s)
    decreases |s|
  {
    if |s| == 0 then 0 else NumberValue(s[..|s| - 1]) * 10 + DigitValue(s[|s| - 1])
  }

  lemma NumberValueOne(s: string)
    requires |s| == 1 && AllDigits(s)
    ensures NumberValue(s) == DigitValue(s[0])
  {
    assert s[..0] == [];
  }

  lemma NumberValueTwo(s: string)
    requires |s| == 2 && AllDigits(s)
    ensures NumberValue(s) == 10 * DigitValue(s[0]) + DigitValue(s[1])
  {
    NumberValueOne(s[..1]);
  }

  /** Appending two digits to a numeral multiplies its value by a hundred
      and adds theirs. */
  lemma NumberValueAppendTwo(a: string, b: string)
    requires AllDigits(a) && |b| == 2 && AllDigits(b)
    ensures AllDigits(a + b) && NumberValue(a + b) == 100 * NumberValue(a) + NumberValue(b)
  {
    var ab := a + b;
    assert ab[..|ab| - 1] == a + [b[0]];
    assert (a + [b[0]])[..|a|] == a;
    NumberValueTwo(b);
  }

  /** Python's `\s` on text: the characters `str.isspace` accepts. */
  predicate IsSpace(c: char) {
    || c == ' ' || '\t' <= c <= '\r' || '\U{1C}' <= c <= '\U{1F}'
    || c == '\U{85}' || c == '\U{A0}' || c == '\U{1680}'
    || '\U{2000}' <= c <= '\U{200A}' || c == '\U{2028}' || c == '\U{2029}'
    || c == '\U{202F}' || c == '\U{205F}' || c == '\U{3000}'
  }

  /** Length of the leading run of digits of `s`. */
  function DigitRun(s: string): (n: nat)
    ensures n <= |s|
    ensures forall i :: 0 <= i < n ==> IsDigit(s[i])
    ensures n < |s| ==> !IsDigit(s[n])
    decreases |s|
  {
    if |s| == 0 || !IsDigit(s[0]) then 0 else 1 + DigitRun(s[1..])
  }

  /** Length of the leading run of whitespace of `s`. */
  function SpaceRun(s: string): (n: nat)
    ensures n <= |s|
    ensures forall i :: 0 <= i < n ==> IsSpace(s[i])
    ensures n < |s| ==> !IsSpace(s[n])
    decreases |s|
  {
    if |s| == 0 || !IsSpace(s[0]) then 0 else 1 + SpaceRun(s[1..])
  }

  // ---------------------------------------------------------------------
  // Writer: strftime

  /** Two-digit zero-padded numeral. */
  function Pad2(n: int): (s: string)
    requires 0 <= n <= 99
    ensures |s| == 2 && AllDigits(s) && NumberValue(s) == n
  {
    var s := [DigitChar(n / 10), DigitChar(n % 10)];
    NumberValueTwo(s);
    s
  }

  /** Four-digit zero-padded numeral: the hundreds, then the rest. */
  function Pad4(n: int): (s: string)
    requires 0 <= n <= 9999
    ensures |s| == 4 && AllDigits(s) && NumberValue(s) == n
  {
    var s := Pad2(n / 100) + Pad2(n % 100);
    NumberValueAppendTwo(Pad2(n / 100), Pad2(n % 100));
    s
  }

  /** The fixed-width shape `YYYY-MM-DD hh:mm:ss`: digits everywhere except
      the five separator positions. */
  predicate IsCanonical(s: string) {
    && |s| == StampLength
    && s[4] == '-' && s[7] == '-' && s[10] == ' ' && s[13] == ':' && s[16] == ':'
    && AllDigits(s[0..4]) && AllDigits(s[5..7]) && AllDigits(s[8..10])
    && AllDigits(s[11..13]) && AllDigits(s[14..16]) && AllDigits(s[17..19])
  }

  /** The fields a canonical stamp spells out, read position by position. */
  function CanonicalFields(s: string): Fields
    requires IsCanonical(s)
  {
    Fields(NumberValue(s[0..4]), NumberValue(s[5..7]), NumberValue(s[8..10]),
           NumberValue(s[11..13]), NumberValue(s[14..16]), NumberValue(s[17..19]))
  }

  /** `t.strftime("%Y-%m-%d %H:%M:%S")`: microseconds are not shown. */
  function Format(t: DateTime): (s: string)
    requires Valid(t)
    ensures IsCanonical(s)
    ensures CanonicalFields(s) == Fields(t.year, t.month, t.day, t.hour, t.minute, t.second)
  {
    var s := Pad4(t.year) + "-" + Pad2(t.month) + "-" + Pad2(t.day) + " "
           + Pad2(t.hour) + ":" + Pad2(t.minute) + ":" + Pad2(t.second);
    assert s[0..4] == Pad4(t.year);
    assert s[5..7] == Pad2(t.month);
    assert s[8..10] == Pad2(t.day);
    assert s[11..13] == Pad2(t.hour);
    assert s[14..16] == Pad2(t.minute);
    assert s[17..19] == Pad2(t.second);
    s
  }

  // ---------------------------------------------------------------------
  // Reader: strptime

  /** A `%m`, `%H` or `%M` style group: one or two digits whose value lies in
      `lo..hi`. The group is always followed by a non-digit separator, so the
      regular expression can only take the whole leading digit run. Returns
      the value and the text after the group. */
  function ScanNumber(s: string, lo: int, hi: int): (r: Result<(int, string), StampError>)
    ensures r.Success? ==> lo <= r.value.0 <= hi && r.value.1 == s[DigitRun(s)..]
    ensures r.Success? <==> 1 <= DigitRun(s) <= 2 && lo <= NumberValue(s[..DigitRun(s)]) <= hi
  {
    var n := DigitRun(s);
    if 1 <= n <= 2 && lo <= NumberValue(s[..n]) <= hi then Success((NumberValue(s[..n]), s[n..]))
    else Failure(DoesNotMatchFormat)
  }

  /** The literal separator `sep` at the head of `s`; returns what follows. */
  function ScanLiteral(s: string, sep: char): (r: Result<string, StampError>)
    ensures r.Success? <==> |s| > 0 && s[0] == sep
    ensures r.Success? ==> r.value == s[1..]
  {
    if |s| > 0 && s[0] == sep then Success(s[1..]) else Failure(DoesNotMatchFormat)
  }

  /** The `%d` group `3[0-1]|[1-2]\d|0[1-9]|[1-9]| [1-9]`. */
  function ScanDay(s: string): (r: Result<(int, string), StampError>)
    ensures r.Success? ==> 1 <= r.value.0 <= 31
  {
    if |s| >= 2 && s[0] == ' ' && '1' <= s[1] <= '9' then Success((DigitValue(s[1]), s[2..]))
    else ScanNumber(s, 1, 31)
  }

  /** The `%S` group `6[0-1]|[0-5]\d|\d`, which ends the pattern: the regular
      expression takes its first alternative that matches, and whatever is
      left over is unconverted data. */
  function ScanSecond(s: string): (r: Result<int, StampError>)
    ensures r.Success? ==> 0 <= r.value <= 61
  {
    var taken :=
      if |s| >= 2 && s[0] == '6' && (s[1] == '0' || s[1] == '1') then 2
      else if |s| >= 2 && '0' <= s[0] <= '5' && IsDigit(s[1]) then 2
      else if |s| >= 1 && IsDigit(s[0]) then 1
      else 0;
    if taken == 0 then Failure(DoesNotMatchFormat)
    else if taken < |s| then Failure(UnconvertedDataRemains)
    else if taken == 1 then
      NumberValueOne(s);
      Success(NumberValue(s))
    else
      NumberValueTwo(s);
      Success(NumberValue(s))
  }

  /** The `%Y-%m-%d` part of the pattern: four year digits, then the month
      and day groups, each after a `-`. Returns the three values and the text
      after the day. */
  function ScanDate(s: string): (r: Result<(int, int, int, string), StampError>)
    ensures r.Success? ==> 0 <= r.value.0 <= 9999 && 1 <= r.value.1 <= 12 && 1 <= r.value.2 <= 31
  {
    if |s| < 4 || !AllDigits(s[..4]) then Failure(DoesNotMatchFormat)
    else
      NumberBound(s[..4]);
      var rest :- ScanLiteral(s[4..], '-');
      var (month, rest) :- ScanNumber(rest, 1, 12);
      var rest :- ScanLiteral(rest, '-');
      var (day, rest) :- ScanDay(rest);
      Success((NumberValue(s[..4]), month, day, rest))
  }

  /** The `%H:%M:%S` part, which ends the pattern. */
  function ScanClock(s: string): (r: Result<(int, int, int), StampError>)
    ensures r.Success? ==> 0 <= r.value.0 <= 23 && 0 <= r.value.1 <= 59 && 0 <= r.value.2 <= 61
  {
    var (hour, rest) :- ScanNumber(s, 0, 23);
    var rest :- ScanLiteral(rest, ':');
    var (minute, rest) :- ScanNumber(rest, 0, 59);
    var rest :- ScanLiteral(rest, ':');
    var second :- ScanSecond(rest);
    Success((hour, minute, second))
  }

  /** The regular-expression stage of `strptime`: captures the six groups.
      The date and the clock are separated by one or more whitespace
      characters. */
  function Scan(s: string): (r: Result<Fields, StampError>)
    ensures r.Success? ==> 1 <= r.value.month <= 12 && 1 <= r.value.day <= 31
    ensures r.Success? ==> 0 <= r.value.hour <= 23 && 0 <= r.value.minute <= 59
    ensures r.Success? ==> 0 <= r.value.year <= 9999 && 0 <= r.value.second <= 61
  {
    var (year, month, day, rest) :- ScanDate(s);
    var gap := SpaceRun(rest);
    if gap == 0 then Failure(DoesNotMatchFormat)
    else
      var (hour, minute, second) :- ScanClock(rest[gap..]);
      Success(Fields(year, month, day, hour, minute, second))
  }

  /** The `datetime(...)` construction that follows the match. */
  function Build(f: Fields): (r: Result<DateTime, StampError>)
    requires 1 <= f.month <= 12 && 0 <= f.hour <= 23 && 0 <= f.minute <= 59 && 0 <= f.second
    ensures r.Success? <==> ValidDate(f.year, f.month, f.day) && f.second <= 59
    ensures r.Success? ==> r.value == DateTime(f.year, f.month, f.day, f.hour, f.minute, f.second, 0)
  {
    if ValidDate(f.year, f.month, f.day) && f.second <= 59 then
      Success(DateTime(f.year, f.month, f.day, f.hour, f.minute, f.second, 0))
    else Failure(FieldOutOfRange)
  }

  /** `datetime.strptime(s, "%Y-%m-%d %H:%M:%S")`. */
  function Parse(s: string): (r: Result<DateTime, StampError>)
    ensures r.Success? ==> Valid(r.value) && r.value.microsecond == 0
    ensures r.Success? ==> Scan(s).Success?
    ensures r.Failure? && Scan(s).Success? ==> r.error == FieldOutOfRange
  {
    var f :- Scan(s);
    Build(f)
  }

  // ---------------------------------------------------------------------
  // Properties

  function Pow10(n: nat): nat {
    if n == 0 then 1 else 10 * Pow10(n - 1)
  }

  /** A numeral of n digits is below 10^n. */
  lemma {:induction false} NumberBound(s: string)
    requires AllDigits(s)
    ensures 0 <= NumberValue(s) < Pow10(|s|)
    decreases |s|
  {
    if |s| > 0 {
      NumberBound(s[..|s| - 1]);
    }
  }

  /** The leading digit run of a text that starts with two digits and a separator. */
  lemma DigitRunTwo(s: string)
    requires |s| >= 3 && IsDigit(s[0]) && IsDigit(s[1]) && !IsDigit(s[2])
    ensures DigitRun(s) == 2
  {
    assert s[1..][1..] == s[2..];
  }

  /** A group of exactly two digits followed by a non-digit is taken whole,
      and matches when its value is in range. */
  lemma TwoDigitGroup(s: string, lo: int, hi: int)
    requires |s| >= 3 && IsDigit(s[0]) && IsDigit(s[1]) && !IsDigit(s[2])
    ensures AllDigits(s[..2]) && 0 <= NumberValue(s[..2]) <= 99
    ensures ScanNumber(s, lo, hi) ==
      if lo <= NumberValue(s[..2]) <= hi then Success((NumberValue(s[..2]), s[2..])) else Failure(DoesNotMatchFormat)
  {
    DigitRunTwo(s);
    NumberValueTwo(s[..2]);
  }

  /** The seconds group on a text that starts with two digits is matched
      only when nothing follows them, and then any value up to 59 is read. */
  lemma SecondGroup(s: string)
    requires |s| >= 2 && IsDigit(s[0]) && IsDigit(s[1])
    ensures ScanSecond(s).Success? ==> |s| == 2 && AllDigits(s) && ScanSecond(s).value == NumberValue(s)
    ensures |s| == 2 && NumberValue(s) <= 59 ==> ScanSecond(s) == Success(NumberValue(s))
  {
    if |s| == 2 {
      NumberValueTwo(s);
    }
  }

  /** The date part of a text that starts `YYYY-MM-DD` and a non-digit:
      the groups are the positional fields, and they match exactly when
      month and day are in the ranges of the regular expression. */
  lemma DateStage(s: string)
    requires |s| >= 11 && s[4] == '-' && s[7] == '-' && !IsDigit(s[10])
    requires AllDigits(s[0..4]) && AllDigits(s[5..7]) && AllDigits(s[8..10])
    ensures ScanDate(s).Success? <==> 1 <= NumberValue(s[5..7]) <= 12 && 1 <= NumberValue(s[8..10]) <= 31
    ensures ScanDate(s).Success? ==>
      ScanDate(s).value == (NumberValue(s[0..4]), NumberValue(s[5..7]), NumberValue(s[8..10]), s[10..])
  {
    assert s[..4] == s[0..4];
    var r1 := s[4..][1..];
    assert r1 == s[5..];
    assert r1[..2] == s[5..7];
    assert IsDigit(s[5..7][0]) && IsDigit(s[5..7][1]);
    TwoDigitGroup(r1, 1, 12);
    var r2 := r1[2..][1..];
    assert r2 == s[8..];
    assert r2[..2] == s[8..10];
    assert IsDigit(s[8..10][0]) && IsDigit(s[8..10][1]);
    TwoDigitGroup(r2, 1, 31);
    assert r2[2..] == s[10..];
  }

  /** The clock part of a text that starts `hh:mm:ss`: nothing may follow,
      the groups are the positional fields, and in-range fields match. */
  lemma ClockStage(s: string)
    requires |s| >= 8 && s[2] == ':' && s[5] == ':'
    requires AllDigits(s[0..2]) && AllDigits(s[3..5]) && AllDigits(s[6..8])
    ensures ScanClock(s).Success? ==>
      |s| == 8 && ScanClock(s).value == (NumberValue(s[0..2]), NumberValue(s[3..5]), NumberValue(s[6..8]))
    ensures |s| == 8 && NumberValue(s[0..2]) <= 23 && NumberValue(s[3..5]) <= 59 && NumberValue(s[6..8]) <= 59
      ==> ScanClock(s).Success?
  {
    assert s[..2] == s[0..2];
    assert IsDigit(s[0..2][0]) && IsDigit(s[0..2][1]);
    TwoDigitGroup(s, 0, 23);
    var r1 := s[2..][1..];
    assert r1 == s[3..];
    assert r1[..2] == s[3..5];
    assert IsDigit(s[3..5][0]) && IsDigit(s[3..5][1]);
    TwoDigitGroup(r1, 0, 59);
    var r2 := r1[2..][1..];
    assert r2 == s[6..];
    assert IsDigit(s[6..8][0]) && IsDigit(s[6..8][1]);
    SecondGroup(r2);
    if |s| == 8 {
      assert r2 == s[6..8];
    }
  }

  /** Scanning a text that starts with a canonical stamp: the groups are
      the stamp's positional fields, nothing may follow the stamp, and a
      stamp whose fields are in the ranges of the regular expression is
      matched in full. */
  lemma ScanStamp(s: string)
    requires |s| >= StampLength && IsCanonical(s[..StampLength])
    ensures Scan(s).Success? ==> |s| == StampLength && Scan(s).value == CanonicalFields(s[..StampLength])
    ensures var f := CanonicalFields(s[..StampLength]);
      |s| == StampLength && 1 <= f.month <= 12 && 1 <= f.day <= 31
      && f.hour <= 23 && f.minute <= 59 && f.second <= 59
      ==> Scan(s).Success?
  {
    var c := s[..StampLength];
    assert s[0..4] == c[0..4] && s[5..7] == c[5..7] && s[8..10] == c[8..10];
    assert s[11..13] == c[11..13] && s[14..16] == c[14..16] && s[17..19] == c[17..19];
    assert s[10] == c[10];
    DateStage(s);
    var rest := s[10..];
    assert SpaceRun(rest) == 1 by {
      assert rest[1..] == s[11..];
      assert IsDigit(s[11..13][0]);
    }
    var t := rest[1..];
    assert t == s[11..];
    assert t[0..2] == s[11..13] && t[3..5] == s[14..16] && t[6..8] == s[17..19];
    ClockStage(t);
  }

  /** A canonical stamp is accepted exactly when it names a real date-time;
      otherwise the reader raises rather than giving any verdict. */
  lemma CanonicalAccepted(s: string)
    requires IsCanonical(s)
    ensures var f := CanonicalFields(s);
      Parse(s).Success? <==>
        ValidDate(f.year, f.month, f.day) && f.hour <= 23 && f.minute <= 59 && f.second <= 59
  {
    assert s[..StampLength] == s;
    ScanStamp(s);
    NumberBound(s[11..13]);
    NumberBound(s[14..16]);
    NumberBound(s[17..19]);
  }

  /** Nothing may follow a stamp: the reader rejects a stamp with any text
      appended, be it a stray space or a carriage return. */
  lemma TrailingTextRejected(stamp: string, extra: string)
    requires IsCanonical(stamp) && |extra| > 0
    ensures Parse(stamp + extra).Failure?
  {
    assert (stamp + extra)[..StampLength] == stamp;
    ScanStamp(stamp + extra);
  }

  /** A canonical stamp is made of digits and the three separator characters. */
  lemma CanonicalAlphabet(s: string)
    requires IsCanonical(s)
    ensures forall i :: 0 <= i < |s| ==> IsDigit(s[i]) || s[i] == '-' || s[i] == ' ' || s[i] == ':'
  {
    forall i | 0 <= i < |s|
      ensures IsDigit(s[i]) || s[i] == '-' || s[i] == ' ' || s[i] == ':'
    {
      if i < 4 { assert s[i] == s[0..4][i]; }
      else if 5 <= i < 7 { assert s[i] == s[5..7][i - 5]; }
      else if 8 <= i < 10 { assert s[i] == s[8..10][i - 8]; }
      else if 11 <= i < 13 { assert s[i] == s[11..13][i - 11]; }
      else if 14 <= i < 16 { assert s[i] == s[14..16][i - 14]; }
      else if 17 <= i { assert s[i] == s[17..19][i - 17]; }
    }
  }

  /** Round trip writer-then-reader: parsing a formatted date-time gives it
      back, to the whole second. */
  lemma ParseFormat(t: DateTime)
    requires Valid(t)
    ensures Parse(Format(t)) == Success(Truncate(t))
  {
    assert Format(t)[..StampLength] == Format(t);
    ScanStamp(Format(t));
  }

  /** A two-digit numeral is the zero-padded form of its value. */
  lemma Pad2OfValue(s: string)
    requires |s| == 2 && AllDigits(s)
    ensures 0 <= NumberValue(s) <= 99 && Pad2(NumberValue(s)) == s
  {
    NumberValueTwo(s);
  }

  /** A four-digit numeral is the zero-padded form of its value. */
  lemma Pad4OfValue(s: string)
    requires |s| == 4 && AllDigits(s)
    ensures 0 <= NumberValue(s) <= 9999 && Pad4(NumberValue(s)) == s
  {
    var hi, lo := s[..2], s[2..];
    assert s == hi + lo;
    NumberValueAppendTwo(hi, lo);
    Pad2OfValue(hi);
    Pad2OfValue(lo);
    DivModHundred(NumberValue(hi), NumberValue(lo));
  }

  /** The hundreds and the last two digits of `100 * hi + lo`. */
  lemma DivModHundred(hi: int, lo: int)
    requires 0 <= lo < 100
    ensures (100 * hi + lo) / 100 == hi && (100 * hi + lo) % 100 == lo
  {
  }

  /** A canonical stamp is determined by the fields it spells out. */
  lemma CanonicalDetermined(a: string, b: string)
    requires IsCanonical(a) && IsCanonical(b) && CanonicalFields(a) == CanonicalFields(b)
    ensures a == b
  {
    Pad4OfValue(a[0..4]);
    Pad4OfValue(b[0..4]);
    Pad2OfValue(a[5..7]);
    Pad2OfValue(b[5..7]);
    Pad2OfValue(a[8..10]);
    Pad2OfValue(b[8..10]);
    Pad2OfValue(a[11..13]);
    Pad2OfValue(b[11..13]);
    Pad2OfValue(a[14..16]);
    Pad2OfValue(b[14..16]);
    Pad2OfValue(a[17..19]);
    Pad2OfValue(b[17..19]);
    forall i | 0 <= i < StampLength
      ensures a[i] == b[i]
    {
      if i < 4 {
        assert a[i] == a[0..4][i] && b[i] == b[0..4][i];
      } else if 5 <= i < 7 {
        assert a[i] == a[5..7][i - 5] && b[i] == b[5..7][i - 5];
      } else if 8 <= i < 10 {
        assert a[i] == a[8..10][i - 8] && b[i] == b[8..10][i - 8];
      } else if 11 <= i < 13 {
        assert a[i] == a[11..13][i - 11] && b[i] == b[11..13][i - 11];
      } else if 14 <= i < 16 {
        assert a[i] == a[14..16][i - 14] && b[i] == b[14..16][i - 14];
      } else if 17 <= i {
        assert a[i] == a[17..19][i - 17] && b[i] == b[17..19][i - 17];
      }
    }
  }

  /** Round trip reader-then-writer: a canonical stamp whose fields name a
      real date-time is accepted, and it is exactly what the writer produces
      for the parsed value. */
  lemma FormatParse(s: string)
    requires IsCanonical(s) && var f := CanonicalFields(s);
      ValidDate(f.year, f.month, f.day) && f.hour <= 23 && f.minute <= 59 && f.second <= 59
    ensures Parse(s).Success? && Format(Parse(s).value) == s
  {
    CanonicalAccepted(s);
    assert s[..StampLength] == s;
    ScanStamp(s);
    CanonicalDetermined(Format(Parse(s).value), s);
  }
}
