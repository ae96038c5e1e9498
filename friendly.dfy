/**
  The as-of date written with `strftime("%A, %B %d, %Y")` in the C locale
  (twitter_bot.py:27, 108): full English weekday, full English month, the day
  in two digits, the year in four.
*/
module Friendly {
  import opened Results
  import opened Decimal
  import opened Calendar

  /** `%A` names, indexed by `Calendar.Weekday` (Monday = 0). */
  const WeekdayNames: seq<string> :=
    ["Monday", "Tuesday", "Wednesday", "Thursday", "Friday", "Saturday", "Sunday"]

  /** `%B` names, indexed by month - 1. */
  const MonthNames: seq<string> :=
    ["January", "February", "March", "April", "May", "June", "July",
     "August", "September", "October", "November", "December"]

  /** The four fields of a friendly date, as text. */
  datatype Parts = Parts(weekday: string, month: string, day: string, year: string)

  /** "<weekday>, <month> <day>, <year>" */
  function Join(p: Parts): string {
    p.weekday + (", " + (p.month + (" " + (p.day + (", " + p.year)))))
  }

  /** The fields `strftime` writes for `d`. */
  function FieldsOf(d: Date): Parts
    requires ValidDate(d)
  {
    Parts(WeekdayNames[Weekday(d)], MonthNames[d.month - 1], ZeroPad(d.day, 2), ZeroPad(d.year, 4))
  }

  /** `as_of.strftime("%A, %B %d, %Y")`. Reading it back gives the date it
      was written from, its weekday name agreeing with the calendar. */
  function FriendlyDate(d: Date): (s: string)
    requires ValidDate(d)
    ensures ReadFriendlyDate(s) == Some(d)
  {
    WeekdayName(Weekday(d));
    MonthName(d.month - 1);
    SplitJoin(FieldsOf(d));
    ReadFieldsOf(d);
    Join(FieldsOf(d))
  }

  // ---------------------------------------------------------------------
  // Reading a friendly date back.
  // ---------------------------------------------------------------------

  /** The position of the first `c` in `s`. */
  function IndexOf(s: string, c: char): (r: Option<nat>)
    ensures r.Some? ==> r.value < |s| && s[r.value] == c && c !in s[..r.value]
    ensures r.None? ==> c !in s
  {
    if s == [] then None
    else if s[0] == c then Some(0)
    else match IndexOf(s[1..], c)
      case None => None
      case Some(i) =>
        assert s[..i + 1] == [s[0]] + s[1..][..i];
        Some(i + 1)
  }

  /** The position of `x` in `names`. */
  function Lookup(names: seq<string>, x: string): (r: Option<nat>)
    ensures r.Some? ==> r.value < |names| && names[r.value] == x
    ensures r.None? ==> x !in names
  {
    if names == [] then None
    else if names[0] == x then Some(0)
    else match Lookup(names[1..], x)
      case None => None
      case Some(i) => Some(i + 1)
  }

  /** Cuts "<weekday>, <month> <DD>, <YYYY>" at the first comma, the first
      blank after it, and the fixed-width tail. */
  function Split(s: string): Option<Parts> {
    match IndexOf(s, ',')
    case None => None
    case Some(comma) =>
      if comma + 2 > |s| || s[comma + 1] != ' ' then None
      else SplitMonth(s[..comma], s[comma + 2..])
  }

  function SplitMonth(weekday: string, rest: string): Option<Parts> {
    match IndexOf(rest, ' ')
    case None => None
    case Some(blank) => SplitDay(weekday, rest[..blank], rest[blank + 1..])
  }

  function SplitDay(weekday: string, month: string, tail: string): Option<Parts> {
    if |tail| != 8 || tail[2..4] != ", " then None
    else Some(Parts(weekday, month, tail[..2], tail[4..]))
  }

  /** Accepts a friendly date when its fields name a valid date whose weekday
      agrees with the calendar. */
  function ReadFriendlyDate(s: string): Option<Date> {
    match Split(s)
    case None => None
    case Some(p) => ReadParts(p)
  }

  function ReadParts(p: Parts): Option<Date> {
    if !AllDigits(p.day) || !AllDigits(p.year) then None
      else
        match (Lookup(WeekdayNames, p.weekday), Lookup(MonthNames, p.month))
        case (Some(w), Some(m)) =>
          var d := Date(DecimalValue(p.year), m + 1, DecimalValue(p.day));
          if ValidDate(d) && Weekday(d) == w then Some(d) else None
        case _ => None
  }

  lemma {:induction false} IndexOfAfter(a: string, c: char, b: string)
    requires c !in a
    ensures IndexOf(a + ([c] + b), c) == Some(|a|)
  {
    var s := a + ([c] + b);
    if a != [] {
      assert s[0] == a[0] && s[1..] == a[1..] + ([c] + b);
      IndexOfAfter(a[1..], c, b);
    }
  }

  lemma {:induction false} LookupDistinct(names: seq<string>, i: nat)
    requires i < |names|
    requires forall j, k :: 0 <= j < k < |names| ==> names[j] != names[k]
    ensures Lookup(names, names[i]) == Some(i)
  {
    if i > 0 {
      LookupDistinct(names[1..], i - 1);
    }
  }

  lemma WeekdayNamesDistinct()
    ensures forall j, k :: 0 <= j < k < |WeekdayNames| ==> WeekdayNames[j] != WeekdayNames[k]
    ensures forall j :: 0 <= j < |WeekdayNames| ==> ',' !in WeekdayNames[j]
  {
  }

  lemma MonthNamesDistinct()
    ensures forall j, k :: 0 <= j < k < |MonthNames| ==> MonthNames[j] != MonthNames[k]
    ensures forall j :: 0 <= j < |MonthNames| ==> ' ' !in MonthNames[j]
  {
  }

  /** A weekday name holds no comma and is found at its own index. */
  lemma WeekdayName(w: nat)
    requires w < |WeekdayNames|
    ensures ',' !in WeekdayNames[w]
    ensures Lookup(WeekdayNames, WeekdayNames[w]) == Some(w)
  {
    WeekdayNamesDistinct();
    LookupDistinct(WeekdayNames, w);
  }

  /** A month name holds no blank and is found at its own index. */
  lemma MonthName(m: nat)
    requires m < |MonthNames|
    ensures ' ' !in MonthNames[m]
    ensures Lookup(MonthNames, MonthNames[m]) == Some(m)
  {
    MonthNamesDistinct();
    LookupDistinct(MonthNames, m);
  }

  /** Joining fields that hold no separator and cutting them again gives them back. */
  lemma SplitJoin(p: Parts)
    requires ',' !in p.weekday && ' ' !in p.month && |p.day| == 2 && |p.year| == 4
    ensures Split(Join(p)) == Some(p)
  {
    var tail := p.day + (", " + p.year);
    SplitAtComma(p.weekday, p.month + (" " + tail));
    SplitAtBlank(p.weekday, p.month, tail);
    SplitTail(p.weekday, p.month, p.day, p.year);
  }

  lemma SplitAtComma(weekday: string, rest: string)
    requires ',' !in weekday
    ensures Split(weekday + (", " + rest)) == SplitMonth(weekday, rest)
  {
    var s := weekday + (", " + rest);
    assert s == weekday + ([','] + ([' '] + rest));
    var comma := |weekday|;
    CutAt(weekday, ',', [' '] + rest);
    assert s[comma + 1..] == [' '] + rest;
    assert s[comma + 1] == ' ' && s[comma + 2..] == rest;
  }

  lemma SplitAtBlank(weekday: string, month: string, tail: string)
    requires ' ' !in month
    ensures SplitMonth(weekday, month + (" " + tail)) == SplitDay(weekday, month, tail)
  {
    assert month + (" " + tail) == month + ([' '] + tail);
    CutAt(month, ' ', tail);
  }

  lemma SplitTail(weekday: string, month: string, day: string, year: string)
    requires |day| == 2 && |year| == 4
    ensures SplitDay(weekday, month, day + (", " + year)) == Some(Parts(weekday, month, day, year))
  {
    var tail := day + (", " + year);
    assert tail[..2] == day && tail[2..4] == ", " && tail[4..] == year;
  }

  /** Cutting at the first `c` finds the `c` put after a text free of it. */
  lemma CutAt(a: string, c: char, b: string)
    requires c !in a
    ensures IndexOf(a + ([c] + b), c) == Some(|a|)
    ensures (a + ([c] + b))[..|a|] == a && (a + ([c] + b))[|a| + 1..] == b
  {
    IndexOfAfter(a, c, b);
    var s := a + ([c] + b);
    assert s[|a|..] == [c] + b;
    assert s[|a| + 1..] == s[|a|..][1..];
  }

  lemma ReadFieldsOf(d: Date)
    requires ValidDate(d)
    ensures ReadParts(FieldsOf(d)) == Some(d)
  {
    var p := FieldsOf(d);
    assert AllDigits(p.day) && DecimalValue(p.day) == d.day;
    assert AllDigits(p.year) && DecimalValue(p.year) == d.year;
    assert Lookup(WeekdayNames, p.weekday) == Some(Weekday(d)) by {
      WeekdayName(Weekday(d));
    }
    assert Lookup(MonthNames, p.month) == Some(d.month - 1) by {
      MonthName(d.month - 1);
    }
  }

  /** Different dates are written differently. */
  lemma FriendlyDateInjective(a: Date, b: Date)
    requires ValidDate(a) && ValidDate(b)
    ensures FriendlyDate(a) == FriendlyDate(b) <==> a == b
  {
  }

  /** The date a feed updated at 05/20/2020 14:30 reports on. */
  lemma FriendlyDateExample()
    ensures FriendlyDate(Date(2020, 5, 19)) == "Tuesday, May 19, 2020"
  {
    FieldsExample();
    JoinExample();
  }

  lemma FieldsExample()
    ensures FieldsOf(Date(2020, 5, 19)) == Parts("Tuesday", "May", "19", "2020")
  {
    TuesdayExample();
    PadDayExample();
    PadYearExample();
  }

  lemma PadDayExample()
    ensures ZeroPad(19, 2) == "19"
  {
    assert ZeroPad(1, 1) == "1";
  }

  lemma PadYearExample()
    ensures ZeroPad(2020, 4) == "2020"
  {
    assert ZeroPad(2, 1) == "2";
    assert ZeroPad(20, 2) == "20";
    assert ZeroPad(202, 3) == "202";
  }

  lemma JoinExample()
    ensures Join(Parts("Tuesday", "May", "19", "2020")) == "Tuesday, May 19, 2020"
  {
    assert ", " + "2020" == ", 2020";
    assert "19" + ", 2020" == "19, 2020";
    assert " " + "19, 2020" == " 19, 2020";
    assert "May" + " 19, 2020" == "May 19, 2020";
    assert ", " + "May 19, 2020" == ", May 19, 2020";
  }
}
