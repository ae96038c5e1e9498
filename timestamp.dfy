/**
  The `lastUpdateEt` timestamp of the COVID Tracking Project feed, read with
  `datetime.strptime(text, "%m/%d/%Y %H:%M")` (twitter_bot.py:50, 102).

  CPython's `_strptime` turns the format into a regular expression, field by
  field:

    %m  1[0-2]|0[1-9]|[1-9]
    %d  3[01]|[12]\d|0[1-9]|[1-9]| [1-9]
    %Y  \d\d\d\d
    %H  2[0-3]|[0-1]\d|\d
    %M  [0-5]\d|\d

  and the blank between date and time becomes `\s+`. The expression must
  match at the start of the text ("does not match format"), nothing may be
  left after the minute ("unconverted data remains"), and the fields must
  then form a real date ("year 0 is out of range", "day is out of range for
  month"). All of these are `ValueError`s.

  The regular expression tries its alternatives in order and backtracks. Here
  backtracking never changes the outcome: every field except the minute is
  followed by a character that is not a digit ('/', ':' or blank), so when a
  two-character alternative matches, the one-character alternative leaves a
  digit where that character must stand and fails too. The minute is last;
  the first alternative that matches is kept and the rest of the text must
  then be empty. The scanners below therefore try the two-character forms
  first and never backtrack.
*/
module Timestamp {
  import opened Results
  import opened Decimal
  import opened Calendar

  /** A `datetime` with the fields this format sets (seconds are always 0). */
  datatype DateTime = DateTime(date: Date, hour: int, minute: int)

  predicate ValidDateTime(t: DateTime) {
    ValidDate(t.date) && 0 <= t.hour <= 23 && 0 <= t.minute <= 59
  }

  /** The `ValueError`s `strptime` raises for this format. */
  datatype ParseError =
    | DoesNotMatch      // the regular expression fails
    | UnconvertedData   // text is left after the minute
    | YearOutOfRange    // year 0
    | DayOutOfRange     // e.g. 04/31 or 02/29 of a common year

  /** The ranges the expression itself imposes on the fields. */
  predicate FieldsInRange(t: DateTime) {
    && 0 <= t.date.year <= MaxYear
    && 1 <= t.date.month <= 12
    && 1 <= t.date.day <= 31
    && 0 <= t.hour <= 23
    && 0 <= t.minute <= 59
  }

  /** A field the expression consumed: its numeric value and the text after it. */
  datatype Scan = Scan(value: int, rest: string)

  /** Python's `\s` on `str` patterns: the characters `str.isspace()` accepts. */
  predicate IsSpace(c: char) {
    var n := c as int;
    || 9 <= n <= 13 || 28 <= n <= 32
    || n == 0x85 || n == 0xA0 || n == 0x1680
    || 0x2000 <= n <= 0x200A
    || n == 0x2028 || n == 0x2029 || n == 0x202F || n == 0x205F || n == 0x3000
  }

  function Two(a: char, b: char): int
    requires IsDigit(a) && IsDigit(b)
  {
    10 * DigitValue(a) + DigitValue(b)
  }

  /** The padding of the field a reader took off the front of `s`, leaving
      `rest`: a blank in place of a leading zero, two characters, or one. */
  function PadRead(s: string, rest: string): Pad {
    if |s| >= 1 && s[0] == ' ' then Blank
    else if |s| == |rest| + 2 then Zero
    else NoPad
  }

  /** %m: `1[0-2]|0[1-9]|[1-9]`. The text consumed is the month, written
      with or without its leading zero. */
  function MonthField(s: string): (r: Result<Scan, ParseError>)
    ensures r.Success? ==> 1 <= r.value.value <= 12
    ensures r.Success? ==> |s| - |r.value.rest| <= 2 && PadRead(s, r.value.rest) != Blank
    ensures r.Success? ==> s == Field(r.value.value, PadRead(s, r.value.rest)) + r.value.rest
  {
    if |s| >= 2 && ((s[0] == '1' && '0' <= s[1] <= '2') || (s[0] == '0' && '1' <= s[1] <= '9')) then
      TwoDigitField(s);
      Success(Scan(Two(s[0], s[1]), s[2..]))
    else if |s| >= 1 && '1' <= s[0] <= '9' then
      OneDigitField(s);
      Success(Scan(DigitValue(s[0]), s[1..]))
    else
      Failure(DoesNotMatch)
  }

  /** %d: `3[01]|[12]\d|0[1-9]|[1-9]| [1-9]`. The text consumed is the day,
      written with its leading zero, without it, or with a blank in its place. */
  function DayField(s: string): (r: Result<Scan, ParseError>)
    ensures r.Success? ==> 1 <= r.value.value <= 31
    ensures r.Success? ==> |s| - |r.value.rest| <= 2
    ensures r.Success? ==> s == Field(r.value.value, PadRead(s, r.value.rest)) + r.value.rest
  {
    if |s| >= 2 && ((s[0] == '3' && '0' <= s[1] <= '1') || ('1' <= s[0] <= '2' && IsDigit(s[1]))
                    || (s[0] == '0' && '1' <= s[1] <= '9')) then
      TwoDigitField(s);
      Success(Scan(Two(s[0], s[1]), s[2..]))
    else if |s| >= 2 && s[0] == ' ' && '1' <= s[1] <= '9' then
      BlankDigitField(s);
      Success(Scan(DigitValue(s[1]), s[2..]))
    else if |s| >= 1 && '1' <= s[0] <= '9' then
      OneDigitField(s);
      Success(Scan(DigitValue(s[0]), s[1..]))
    else
      Failure(DoesNotMatch)
  }

  /** %Y: exactly four digits. */
  function YearField(s: string): (r: Result<Scan, ParseError>)
    ensures r.Success? ==> 0 <= r.value.value <= MaxYear
    ensures r.Success? ==> |s| >= 4 && AllDigits(s[..4]) && DecimalValue(s[..4]) == r.value.value
                           && r.value.rest == s[4..]
  {
    if |s| >= 4 && AllDigits(s[..4]) then
      DecimalValueBound(s[..4]);
      Success(Scan(DecimalValue(s[..4]), s[4..]))
    else
      Failure(DoesNotMatch)
  }

  /** %H: `2[0-3]|[0-1]\d|\d`. The text consumed is the hour, written with
      or without its leading zero. */
  function HourField(s: string): (r: Result<Scan, ParseError>)
    ensures r.Success? ==> 0 <= r.value.value <= 23
    ensures r.Success? ==> |s| - |r.value.rest| <= 2 && PadRead(s, r.value.rest) != Blank
    ensures r.Success? ==> s == Field(r.value.value, PadRead(s, r.value.rest)) + r.value.rest
  {
    if |s| >= 2 && ((s[0] == '2' && '0' <= s[1] <= '3') || ('0' <= s[0] <= '1' && IsDigit(s[1]))) then
      TwoDigitField(s);
      Success(Scan(Two(s[0], s[1]), s[2..]))
    else if |s| >= 1 && IsDigit(s[0]) then
      OneDigitField(s);
      Success(Scan(DigitValue(s[0]), s[1..]))
    else
      Failure(DoesNotMatch)
  }

  /** %M: `[0-5]\d|\d`. The text consumed is the minute, written with or
      without its leading zero. */
  function MinuteField(s: string): (r: Result<Scan, ParseError>)
    ensures r.Success? ==> 0 <= r.value.value <= 59
    ensures r.Success? ==> |s| - |r.value.rest| <= 2 && PadRead(s, r.value.rest) != Blank
    ensures r.Success? ==> s == Field(r.value.value, PadRead(s, r.value.rest)) + r.value.rest
  {
    if |s| >= 2 && '0' <= s[0] <= '5' && IsDigit(s[1]) then
      TwoDigitField(s);
      Success(Scan(Two(s[0], s[1]), s[2..]))
    else if |s| >= 1 && IsDigit(s[0]) then
      OneDigitField(s);
      Success(Scan(DigitValue(s[0]), s[1..]))
    else
      Failure(DoesNotMatch)
  }

  /** A literal character of the format. */
  function Literal(c: char, s: string): (r: Result<string, ParseError>)
    ensures r.Success? <==> |s| >= 1 && s[0] == c
    ensures r.Success? ==> r.value == s[1..]
  {
    if |s| >= 1 && s[0] == c then Success(s[1..]) else Failure(DoesNotMatch)
  }

  /** The text after the run of blanks at the start of `s`. */
  function SkipSpaces(s: string): (rest: string)
    ensures |rest| <= |s| && rest == s[|s| - |rest|..]
    ensures forall i :: 0 <= i < |s| - |rest| ==> IsSpace(s[i])
    ensures rest == [] || !IsSpace(rest[0])
  {
    if |s| >= 1 && IsSpace(s[0]) then SkipSpaces(s[1..]) else s
  }

  /** `\s+`: one blank or more, as many as there are. */
  function Blanks(s: string): (r: Result<string, ParseError>)
    ensures r.Success? <==> |s| >= 1 && IsSpace(s[0])
    ensures r.Success? ==> |r.value| < |s| && r.value == s[|s| - |r.value|..]
    ensures r.Success? ==> (forall i :: 0 <= i < |s| - |r.value| ==> IsSpace(s[i]))
                           && (r.value == [] || !IsSpace(r.value[0]))
  {
    if |s| >= 1 && IsSpace(s[0]) then Success(SkipSpaces(s)) else Failure(DoesNotMatch)
  }

  /** The match of the whole expression, then the check for unconverted data. */
  function MatchFormat(s: string): (r: Result<DateTime, ParseError>)
    ensures r.Success? ==> FieldsInRange(r.value)
  {
    var date :- MatchDate(s);
    var time :- MatchTime(date.1);
    Success(DateTime(date.0, time.0, time.1))
  }

  /** `%m/%d/%Y`: the date the text starts with, and the text after it. */
  function MatchDate(s: string): (r: Result<(Date, string), ParseError>)
    ensures r.Success? ==> var d := r.value.0; 0 <= d.year <= MaxYear && 1 <= d.month <= 12 && 1 <= d.day <= 31
  {
    var month :- MonthField(s);
    var afterMonth :- Literal('/', month.rest);
    var day :- DayField(afterMonth);
    var afterDay :- Literal('/', day.rest);
    var year :- YearField(afterDay);
    Success((Date(year.value, month.value, day.value), year.rest))
  }

  /** ` %H:%M`, which must end the text: the hour and the minute. */
  function MatchTime(s: string): (r: Result<(int, int), ParseError>)
    ensures r.Success? ==> 0 <= r.value.0 <= 23 && 0 <= r.value.1 <= 59
  {
    var afterYear :- Blanks(s);
    var hour :- HourField(afterYear);
    var afterHour :- Literal(':', hour.rest);
    var minute :- MinuteField(afterHour);
    if minute.rest != [] then Failure(UnconvertedData)
    else Success((hour.value, minute.value))
  }

  /** `datetime.strptime(s, "%m/%d/%Y %H:%M")`. */
  function ParseLastUpdate(s: string): (r: Result<DateTime, ParseError>)
    ensures r.Success? ==> ValidDateTime(r.value)
    ensures r.Success? <==> MatchFormat(s).Success? && ValidDate(MatchFormat(s).value.date)
  {
    var t :- MatchFormat(s);
    if t.date.year < MinYear then Failure(YearOutOfRange)
    else if t.date.day > DaysInMonth(t.date.year, t.date.month) then Failure(DayOutOfRange)
    else Success(t)
  }

  // ---------------------------------------------------------------------
  // Every way of writing a timestamp that the expression accepts.
  // ---------------------------------------------------------------------

  /** How a one- or two-digit field is written: with a leading zero, without
      one, or (the day only) with a blank in its place. */
  datatype Pad = Zero | NoPad | Blank

  function Field(n: nat, p: Pad): string
    requires n < 100
  {
    match p
    case Zero => ZeroPad(n, 2)
    case NoPad => NatToString(n)
    case Blank => if n < 10 then " " + NatToString(n) else NatToString(n)
  }

  /** The padding of each field and the whitespace between date and time. */
  datatype Layout = Layout(month: Pad, day: Pad, gap: string, hour: Pad, minute: Pad)

  predicate ValidLayout(l: Layout) {
    && l.month != Blank && l.hour != Blank && l.minute != Blank
    && |l.gap| >= 1 && forall i :: 0 <= i < |l.gap| ==> IsSpace(l.gap[i])
  }

  /** What `strftime("%m/%d/%Y %H:%M")` writes. */
  const Strftime := Layout(Zero, Zero, " ", Zero, Zero)

  /** The fields of `t` in layout `l`, followed by `tail`. */
  function Written(t: DateTime, l: Layout, tail: string): string
    requires FieldsInRange(t)
  {
    Field(t.date.month, l.month) + ("/" + (Field(t.date.day, l.day) + ("/" + (ZeroPad(t.date.year, 4)
      + TimeWritten(t, l, tail)))))
  }

  /** `t.strftime("%m/%d/%Y %H:%M")`. */
  function FormatTimestamp(t: DateTime): string
    requires ValidDateTime(t)
  {
    Written(t, Strftime, [])
  }

  /** A field is the two digits of its number, or one digit (after a blank
      for `Blank`) when it is below 10 and not zero-padded. */
  lemma FieldShape(n: nat, p: Pad)
    requires n < 100
    ensures p == Zero || n >= 10 ==> Field(n, p) == [DigitChar(n / 10), DigitChar(n % 10)]
    ensures p == NoPad && n < 10 ==> Field(n, p) == [DigitChar(n)]
    ensures p == Blank && n < 10 ==> Field(n, p) == [' ', DigitChar(n)]
  {
    var q, r := n / 10, n % 10;
    assert q < 10 && q / 10 == 0 && q % 10 == q;
    if p == Zero {
      assert ZeroPad(q, 1) == [DigitChar(q)] by {
        assert ZeroPad(q, 1) == ZeroPad(0, 0) + [DigitChar(q)];
      }
      assert ZeroPad(n, 2) == ZeroPad(q, 1) + [DigitChar(r)];
    } else if n >= 10 {
      assert NatToString(q) == [DigitChar(q)];
      assert NatToString(n) == NatToString(q) + [DigitChar(r)];
    }
  }

  /** Two digits are the zero-padded field of the number they spell. */
  lemma TwoDigitField(s: string)
    requires |s| >= 2 && IsDigit(s[0]) && IsDigit(s[1])
    ensures s == Field(Two(s[0], s[1]), Zero) + s[2..]
  {
    var w := s[..2];
    TwoDigitValue(w);
    assert Pow10(2) == 100;
    DecimalValueInjective(ZeroPad(Two(s[0], s[1]), 2), w);
    assert s == w + s[2..];
  }

  /** One digit is the unpadded field of its value. */
  lemma OneDigitField(s: string)
    requires |s| >= 1 && IsDigit(s[0])
    ensures s == Field(DigitValue(s[0]), NoPad) + s[1..]
  {
    FieldShape(DigitValue(s[0]), NoPad);
    assert s == [s[0]] + s[1..];
  }

  /** A blank and a nonzero digit are the blank-padded field of the digit. */
  lemma BlankDigitField(s: string)
    requires |s| >= 2 && s[0] == ' ' && '1' <= s[1] <= '9'
    ensures s == Field(DigitValue(s[1]), Blank) + s[2..]
  {
    FieldShape(DigitValue(s[1]), Blank);
    assert s == [s[0], s[1]] + s[2..];
  }

  lemma MonthFieldOf(m: nat, p: Pad, rest: string)
    requires 1 <= m <= 12 && p != Blank && |rest| >= 1 && !IsDigit(rest[0])
    ensures MonthField(Field(m, p) + rest) == Success(Scan(m, rest))
  {
    var s := Field(m, p) + rest;
    if p == Zero || m >= 10 {
      var q, r := m / 10, m % 10;
      assert s[0] == DigitChar(q) && s[1] == DigitChar(r) && s[2..] == rest by {
        FieldShape(m, p);
      }
      assert q == 0 || (q == 1 && r <= 2);
      assert Two(s[0], s[1]) == m;
    } else {
      assert s[0] == DigitChar(m) && s[1..] == rest by {
        FieldShape(m, p);
      }
    }
  }

  lemma DayFieldOf(d: nat, p: Pad, rest: string)
    requires 1 <= d <= 31 && |rest| >= 1 && !IsDigit(rest[0])
    ensures DayField(Field(d, p) + rest) == Success(Scan(d, rest))
  {
    var s := Field(d, p) + rest;
    if p == Zero || d >= 10 {
      var q, r := d / 10, d % 10;
      assert s[0] == DigitChar(q) && s[1] == DigitChar(r) && s[2..] == rest by {
        FieldShape(d, p);
      }
      assert (q == 0 && r >= 1) || q == 1 || q == 2 || (q == 3 && r <= 1);
      assert Two(s[0], s[1]) == d;
    } else if p == Blank {
      assert s[0] == ' ' && s[1] == DigitChar(d) && s[2..] == rest by {
        FieldShape(d, p);
      }
    } else {
      assert s[0] == DigitChar(d) && s[1..] == rest by {
        FieldShape(d, p);
      }
    }
  }

  lemma HourFieldOf(h: nat, p: Pad, rest: string)
    requires 0 <= h <= 23 && p != Blank && |rest| >= 1 && !IsDigit(rest[0])
    ensures HourField(Field(h, p) + rest) == Success(Scan(h, rest))
  {
    var s := Field(h, p) + rest;
    if p == Zero || h >= 10 {
      var q, r := h / 10, h % 10;
      assert s[0] == DigitChar(q) && s[1] == DigitChar(r) && s[2..] == rest by {
        FieldShape(h, p);
      }
      assert q <= 1 || (q == 2 && r <= 3);
      assert Two(s[0], s[1]) == h;
    } else {
      assert s[0] == DigitChar(h) && s[1..] == rest by {
        FieldShape(h, p);
      }
    }
  }

  /** The minute is last: a one-digit minute is read as such only when no
      digit follows it. */
  lemma MinuteFieldOf(m: nat, p: Pad, rest: string)
    requires 0 <= m <= 59 && p != Blank
    requires p == Zero || m >= 10 || rest == [] || !IsDigit(rest[0])
    ensures MinuteField(Field(m, p) + rest) == Success(Scan(m, rest))
  {
    var s := Field(m, p) + rest;
    if p == Zero || m >= 10 {
      var q, r := m / 10, m % 10;
      assert s[0] == DigitChar(q) && s[1] == DigitChar(r) && s[2..] == rest by {
        FieldShape(m, p);
      }
      assert q <= 5 && Two(s[0], s[1]) == m;
    } else {
      assert s[0] == DigitChar(m) && s[1..] == rest by {
        FieldShape(m, p);
      }
      assert |s| == 1 || !IsDigit(s[1]);
    }
  }

  /** `\s+` consumes the whole gap and stops at the digit after it. */
  lemma BlanksOfGap(gap: string, rest: string)
    requires |gap| >= 1 && forall i :: 0 <= i < |gap| ==> IsSpace(gap[i])
    requires |rest| >= 1 && IsDigit(rest[0])
    ensures Blanks(gap + rest) == Success(rest)
  {
    assert (gap + rest)[0] == gap[0];
    SkipGap(gap, rest);
  }

  lemma {:induction false} SkipGap(gap: string, rest: string)
    requires forall i :: 0 <= i < |gap| ==> IsSpace(gap[i])
    requires |rest| >= 1 && IsDigit(rest[0])
    ensures SkipSpaces(gap + rest) == rest
    decreases |gap|
  {
    if gap == [] {
      assert gap + rest == rest;
      assert !IsSpace(rest[0]);
    } else {
      var s, tail := gap + rest, gap[1..];
      assert s[0] == gap[0] && IsSpace(s[0]);
      assert s[1..] == tail + rest;
      assert forall i :: 0 <= i < |tail| ==> tail[i] == gap[i + 1];
      SkipGap(tail, rest);
    }
  }

  // ---------------------------------------------------------------------
  // Every text the expression accepts is one of those writings.
  // ---------------------------------------------------------------------

  lemma ReadYear(s: string)
    requires YearField(s).Success?
    ensures var f := YearField(s).value; s == ZeroPad(f.value, 4) + f.rest
  {
    var f := YearField(s).value;
    var w := s[..4];
    DecimalValueBound(w);
    DecimalValueInjective(ZeroPad(f.value, 4), w);
    assert s == w + f.rest;
  }

  /** The text `%m/%d/%Y` accepted is the month, day and year it yields,
      written in some layout, followed by the rest. */
  lemma MatchedDate(s: string) returns (month: Pad, day: Pad)
    requires MatchDate(s).Success?
    ensures var d, rest := MatchDate(s).value.0, MatchDate(s).value.1;
            month != Blank
            && s == Field(d.month, month) + ("/" + (Field(d.day, day) + ("/" + (ZeroPad(d.year, 4) + rest))))
  {
    var m := MonthField(s).value;
    var a1 := Literal('/', m.rest).value;
    var dd := DayField(a1).value;
    var a2 := Literal('/', dd.rest).value;
    var y := YearField(a2).value;
    assert MatchDate(s).value == (Date(y.value, m.value, dd.value), y.rest);
    month := PadRead(s, m.rest);
    day := PadRead(a1, dd.rest);
    assert a2 == ZeroPad(y.value, 4) + y.rest by {
      ReadYear(a2);
    }
    assert dd.rest == "/" + a2 by {
      LiteralThen('/', dd.rest);
    }
    assert m.rest == "/" + a1 by {
      LiteralThen('/', m.rest);
    }
  }

  lemma LiteralThen(c: char, s: string)
    requires Literal(c, s).Success?
    ensures s == [c] + Literal(c, s).value
  {
  }

  /** The text ` %H:%M` accepted is a whitespace run, then the hour and the
      minute it yields written in some layout, and nothing else. */
  lemma MatchedTime(s: string) returns (gap: string, hour: Pad, minute: Pad)
    requires MatchTime(s).Success?
    ensures |gap| >= 1 && (forall i :: 0 <= i < |gap| ==> IsSpace(gap[i]))
    ensures hour != Blank && minute != Blank
    ensures var h, m := MatchTime(s).value.0, MatchTime(s).value.1;
            s == gap + (Field(h, hour) + (":" + (Field(m, minute) + [])))
  {
    var b := Blanks(s).value;
    var hf := HourField(b).value;
    var a := Literal(':', hf.rest).value;
    var mf := MinuteField(a).value;
    assert MatchTime(s).value == (hf.value, mf.value) && mf.rest == [];
    gap := s[..|s| - |b|];
    hour := PadRead(b, hf.rest);
    minute := PadRead(a, mf.rest);
    assert hf.rest == ":" + a by {
      LiteralThen(':', hf.rest);
    }
    assert s == gap + b;
  }

  /** The converse of `MatchWritten`: a text the expression accepts is the
      writing of the date and time it yields, in some accepted layout. */
  lemma MatchedIsWritten(s: string, t: DateTime)
    requires MatchFormat(s) == Success(t)
    ensures FieldsInRange(t) && exists l :: ValidLayout(l) && s == Written(t, l, [])
  {
    var date := MatchDate(s).value;
    var time := MatchTime(date.1).value;
    assert t == DateTime(date.0, time.0, time.1);
    var month, day := MatchedDate(s);
    var gap, hour, minute := MatchedTime(date.1);
    var l := Layout(month, day, gap, hour, minute);
    assert TimeWritten(t, l, []) == date.1;
    assert Written(t, l, []) == s;
  }

  /** `strptime` accepts exactly the texts that write a valid date and time
      in an accepted layout, and returns that date and time. */
  lemma ParseIffWritten(s: string, t: DateTime)
    ensures ParseLastUpdate(s) == Success(t)
        <==> ValidDateTime(t) && exists l :: ValidLayout(l) && s == Written(t, l, [])
  {
    if ParseLastUpdate(s) == Success(t) {
      MatchedIsWritten(s, t);
    }
    if ValidDateTime(t) && exists l :: ValidLayout(l) && s == Written(t, l, []) {
      var l :| ValidLayout(l) && s == Written(t, l, []);
      ParseWritten(t, l, []);
    }
  }

  /** The expression reads back the fields of a timestamp written in any
      layout it accepts, and anything written after the minute is
      unconverted data. */
  lemma MatchWritten(t: DateTime, l: Layout, tail: string)
    requires FieldsInRange(t) && ValidLayout(l)
    requires l.minute == Zero || t.minute >= 10 || tail == [] || !IsDigit(tail[0])
    ensures MatchFormat(Written(t, l, tail)) == if tail == [] then Success(t) else Failure(UnconvertedData)
  {
    var mm, dd, yyyy := Field(t.date.month, l.month), Field(t.date.day, l.day), ZeroPad(t.date.year, 4);
    var time := TimeWritten(t, l, tail);
    var r2 := "/" + (yyyy + time);
    var r1 := "/" + (dd + r2);
    assert Written(t, l, tail) == mm + r1;
    assert MatchDate(Written(t, l, tail)) == Success((t.date, time)) by {
      DateSteps(t, l, time);
    }
    assert MatchTime(time) == if tail == [] then Success((t.hour, t.minute)) else Failure(UnconvertedData) by {
      TimeSteps(t, l, tail);
    }
  }

  /** The part of a written timestamp from the whitespace on. */
  function TimeWritten(t: DateTime, l: Layout, tail: string): string
    requires FieldsInRange(t)
  {
    l.gap + (Field(t.hour, l.hour) + (":" + (Field(t.minute, l.minute) + tail)))
  }

  /** Month, day and year are read off the front, in turn. */
  lemma DateSteps(t: DateTime, l: Layout, time: string)
    requires FieldsInRange(t) && ValidLayout(l) && |time| >= 1 && !IsDigit(time[0])
    ensures var yyyy := ZeroPad(t.date.year, 4);
            var r2 := "/" + (yyyy + time);
            var r1 := "/" + (Field(t.date.day, l.day) + r2);
            && MonthField(Field(t.date.month, l.month) + r1) == Success(Scan(t.date.month, r1))
            && Literal('/', r1) == Success(Field(t.date.day, l.day) + r2)
            && DayField(Field(t.date.day, l.day) + r2) == Success(Scan(t.date.day, r2))
            && Literal('/', r2) == Success(yyyy + time)
            && YearField(yyyy + time) == Success(Scan(t.date.year, time))
  {
    var dd, yyyy := Field(t.date.day, l.day), ZeroPad(t.date.year, 4);
    var r2 := "/" + (yyyy + time);
    var r1 := "/" + (dd + r2);
    MonthFieldOf(t.date.month, l.month, r1);
    assert r1[1..] == dd + r2;
    DayFieldOf(t.date.day, l.day, r2);
    assert r2[1..] == yyyy + time;
    YearFieldOfPadded(t.date.year, time);
  }

  /** The whitespace, hour and minute are read off the rest. */
  lemma TimeSteps(t: DateTime, l: Layout, tail: string)
    requires FieldsInRange(t) && ValidLayout(l)
    requires l.minute == Zero || t.minute >= 10 || tail == [] || !IsDigit(tail[0])
    ensures |TimeWritten(t, l, tail)| >= 1 && IsSpace(TimeWritten(t, l, tail)[0])
    ensures var hh, mi := Field(t.hour, l.hour), Field(t.minute, l.minute);
            var r4 := ":" + (mi + tail);
            && Blanks(TimeWritten(t, l, tail)) == Success(hh + r4)
            && HourField(hh + r4) == Success(Scan(t.hour, r4))
            && Literal(':', r4) == Success(mi + tail)
            && MinuteField(mi + tail) == Success(Scan(t.minute, tail))
  {
    var hh, mi := Field(t.hour, l.hour), Field(t.minute, l.minute);
    var r4 := ":" + (mi + tail);
    assert TimeWritten(t, l, tail) == l.gap + (hh + r4);
    assert TimeWritten(t, l, tail)[0] == l.gap[0];
    FieldShape(t.hour, l.hour);
    assert (hh + r4)[0] == hh[0];
    BlanksOfGap(l.gap, hh + r4);
    HourFieldOf(t.hour, l.hour, r4);
    assert r4[1..] == mi + tail;
    MinuteFieldOf(t.minute, l.minute, tail);
  }

  lemma YearFieldOfPadded(y: int, rest: string)
    requires 0 <= y <= MaxYear
    ensures YearField(ZeroPad(y, 4) + rest) == Success(Scan(y, rest))
  {
    var yyyy := ZeroPad(y, 4);
    assert (yyyy + rest)[..4] == yyyy;
    assert (yyyy + rest)[4..] == rest;
  }

  /** `strptime` on a written timestamp: text after the minute is refused,
      then year 0, then a day past the end of its month; otherwise the
      fields come back unchanged. */
  lemma ParseWritten(t: DateTime, l: Layout, tail: string)
    requires FieldsInRange(t) && ValidLayout(l)
    requires l.minute == Zero || t.minute >= 10 || tail == [] || !IsDigit(tail[0])
    ensures ParseLastUpdate(Written(t, l, tail)) ==
      if tail != [] then Failure(UnconvertedData)
      else if t.date.year < MinYear then Failure(YearOutOfRange)
      else if t.date.day > DaysInMonth(t.date.year, t.date.month) then Failure(DayOutOfRange)
      else Success(t)
  {
    MatchWritten(t, l, tail);
  }

  /** Reading a written timestamp gives back the same date and time. */
  lemma ParseFormatRoundTrip(t: DateTime)
    requires ValidDateTime(t)
    ensures ParseLastUpdate(FormatTimestamp(t)) == Success(t)
  {
    assert IsSpace(' ');
    ParseWritten(t, Strftime, []);
  }

  /** An ISO date does not match the format. */
  lemma DoesNotMatchExample()
    ensures ParseLastUpdate("2020-05-20 14:30") == Failure(DoesNotMatch)
  {
  }
}
