/**
  The transform stage of `main()` in twitter_bot.py: from the five fields of
  the COVID Tracking Project's `current.json` record for one state to the
  status text, and the decision whether to post it.

  The HTTP request, JSON decoding, logging and the tweepy calls are not part
  of this model; the decoded record is a map from key to value, and the two
  environment settings the stage reads (`STATE_NAME`, `SEND_TWEET`) are
  parameters.
*/
module TwitterBot {
  import opened Results
  import opened Decimal
  import opened Calendar
  import opened Timestamp
  import opened Friendly
  import opened Printf

  // ---------------------------------------------------------------------
  // Input and configuration.
  // ---------------------------------------------------------------------

  /** The JSON keys the bot reads (twitter_bot.py:51-56). */
  const DeathIncreaseKey := "deathIncrease"
  const HospitalizedIncreaseKey := "hospitalizedIncrease"
  const LastUpdateKey := "lastUpdateEt"
  const PositiveIncreaseKey := "positiveIncrease"
  const TestIncreaseKey := "totalTestResultsIncrease"

  /** A decoded JSON value: a whole number, a string or `null`. */
  datatype Value = Number(n: int) | Text(s: string) | Null

  /** The decoded response object. */
  type Response = map<string, Value>

  /** The environment variables the stage reads; `None` when unset. */
  datatype Config = Config(stateName: Option<string>, sendTweet: Option<string>)

  /** The exceptions that end `main()` before a status is composed. */
  datatype Failure =
    | MissingKey(key: string)          // KeyError (lines 95-99)
    | TimestampNotText                 // TypeError from strptime (line 102)
    | BadTimestamp(reason: ParseError) // ValueError from strptime (line 102)
    | DateOverflow                     // OverflowError from the day subtraction (line 105)
    | NotAnInteger(key: string)        // int() of a value that is not a whole number (lines 111-139)

  /** The five values lines 95-99 take out of the response. */
  datatype Fields = Fields(deaths: Value, hospitalizations: Value, lastUpdated: Value,
                           positiveTests: Value, tests: Value)

  /** `response[key]` for the five keys, in the order the source reads them. */
  function ExtractFields(response: Response): (r: Result<Fields, Failure>)
    ensures r.Success? <==> FieldKeys() <= response.Keys
    ensures r.Success? ==> r.value == Fields(response[DeathIncreaseKey], response[HospitalizedIncreaseKey],
                                             response[LastUpdateKey], response[PositiveIncreaseKey],
                                             response[TestIncreaseKey])
    ensures r.Failure? ==> r.error == MissingKey(FirstMissingKey(response))
  {
    if DeathIncreaseKey !in response then Failure(MissingKey(DeathIncreaseKey))
    else if HospitalizedIncreaseKey !in response then Failure(MissingKey(HospitalizedIncreaseKey))
    else if LastUpdateKey !in response then Failure(MissingKey(LastUpdateKey))
    else if PositiveIncreaseKey !in response then Failure(MissingKey(PositiveIncreaseKey))
    else if TestIncreaseKey !in response then Failure(MissingKey(TestIncreaseKey))
    else Success(Fields(response[DeathIncreaseKey], response[HospitalizedIncreaseKey],
                        response[LastUpdateKey], response[PositiveIncreaseKey], response[TestIncreaseKey]))
  }

  /** The five keys in the order lines 95-99 read them. */
  const KeyOrder := [DeathIncreaseKey, HospitalizedIncreaseKey, LastUpdateKey, PositiveIncreaseKey, TestIncreaseKey]

  function FieldKeys(): set<string> {
    {KeyOrder[0], KeyOrder[1], KeyOrder[2], KeyOrder[3], KeyOrder[4]}
  }

  /** The first of the five keys, in reading order, that the response lacks. */
  function FirstMissingKey(response: Response): string {
    if KeyOrder[0] !in response then KeyOrder[0]
    else if KeyOrder[1] !in response then KeyOrder[1]
    else if KeyOrder[2] !in response then KeyOrder[2]
    else if KeyOrder[3] !in response then KeyOrder[3]
    else KeyOrder[4]
  }

  // ---------------------------------------------------------------------
  // The derived values.
  // ---------------------------------------------------------------------

  /** Lines 111-112: a negative death increase (a retroactive correction)
      is shown as 0; this is `max(deaths, 0)`. */
  function ClampDeaths(deaths: int): (shown: int)
    ensures shown >= 0 && shown >= deaths
    ensures shown == deaths || shown == 0
  {
    if deaths < 0 then 0 else deaths
  }

  /** Line 118: the full template needs more tests than positive results.
      It can then divide by zero only when the positives are negative, and
      line 126 guards exactly that case. */
  function UseFullTemplate(positives: int, tests: int): (full: bool)
    ensures full && positives >= 0 ==> tests > 0
    ensures tests == 0 ==> (full <==> positives < 0)
    ensures positives == tests ==> !full
  {
    positives < tests
  }

  /** Line 126: positives as a percentage of tests, 0.0 when there are no tests
      (exact; the float rounding of `/` and `* 100` is not modelled). */
  function Percentage(positives: int, tests: int): (pct: real)
    ensures tests == 0 ==> pct == 0.0
    ensures tests != 0 ==> pct * (tests as real) == 100.0 * (positives as real)
  {
    if tests != 0 then (positives as real) / (tests as real) * 100.0 else 0.0
  }

  // ---------------------------------------------------------------------
  // The templates (twitter_bot.py:35-43), cut at their conversions.
  // ---------------------------------------------------------------------

  /** The part both templates end with. */
  const TemplateTail := "%d" + (" new hospitalization(s); " + ("%d" + " new death(s). #coronavirus #covid19"))

  /** What follows the positive count in the full template. */
  const FullMiddle :=
    " new positive case(s) out of " + ("%d" + (" test(s) (" + ("%.1f" + ("%%" + ("); " + TemplateTail)))))

  /** What follows the positive count in the partial template. */
  const PartialMiddle := " new positive case(s); " + TemplateTail

  /** The opening both templates share, up to the positive count. */
  function Opening(rest: string): string {
    "%s" + (" COVID-19 numbers for " + ("%s" + (": " + ("%d" + rest))))
  }

  /** `TWEET_TEMPLATE_FULL` */
  const TweetTemplateFull := Opening(FullMiddle)

  /** `TWEET_TEMPLATE_PARTIAL` */
  const TweetTemplatePartial := Opening(PartialMiddle)

  const Hashtags := "#coronavirus #covid19"

  /** What `%s` writes for `STATE_NAME`: the name, or "None" when unset. */
  function StateArg(stateName: Option<string>): Arg {
    match stateName
    case Some(name) => Str(name)
    case None => NoneValue
  }

  /** What that `%s` writes as text. */
  function StateText(stateName: Option<string>): string {
    StrText(StateArg(stateName)).value
  }

  /** The arguments of the shared opening, then `rest`. */
  function OpeningArgs(stateName: Option<string>, friendly: string, positives: int, rest: seq<Arg>): seq<Arg> {
    [StateArg(stateName), Str(friendly), Int(positives)] + rest
  }

  /** The argument tuple of lines 121-129. */
  function FullArgs(stateName: Option<string>, friendly: string, positives: int, tests: int,
                    hospitalizations: int, deaths: int): seq<Arg>
  {
    OpeningArgs(stateName, friendly, positives,
      [Int(tests), Float(Percentage(positives, tests)), Int(hospitalizations), Int(deaths)])
  }

  /** The argument tuple of lines 135-141. */
  function PartialArgs(stateName: Option<string>, friendly: string, positives: int,
                       hospitalizations: int, deaths: int): seq<Arg>
  {
    OpeningArgs(stateName, friendly, positives, [Int(hospitalizations), Int(deaths)])
  }

  function OpeningText(stateName: Option<string>, friendly: string, positives: int, rest: string): string {
    StateText(stateName) + (" COVID-19 numbers for " + (friendly + (": " + (IntToString(positives) + rest))))
  }

  function TailText(hospitalizations: int, deaths: int): string {
    IntToString(hospitalizations) + (" new hospitalization(s); " +
    (IntToString(deaths) + " new death(s). #coronavirus #covid19"))
  }

  function FullMiddleText(tests: int, percentText: string, hospitalizations: int, deaths: int): string {
    " new positive case(s) out of " + (IntToString(tests) + (" test(s) (" +
    (percentText + ("%" + ("); " + TailText(hospitalizations, deaths))))))
  }

  function PartialMiddleText(hospitalizations: int, deaths: int): string {
    " new positive case(s); " + TailText(hospitalizations, deaths)
  }

  function FullText(stateName: Option<string>, friendly: string, positives: int, tests: int,
                    hospitalizations: int, deaths: int, fixed1: real -> string): string
  {
    OpeningText(stateName, friendly, positives,
      FullMiddleText(tests, fixed1(Percentage(positives, tests)), hospitalizations, deaths))
  }

  function PartialText(stateName: Option<string>, friendly: string, positives: int,
                       hospitalizations: int, deaths: int): string
  {
    OpeningText(stateName, friendly, positives, PartialMiddleText(hospitalizations, deaths))
  }

  predicate StartsWith(s: string, prefix: string) {
    |prefix| <= |s| && s[..|prefix|] == prefix
  }

  predicate EndsWith(s: string, suffix: string) {
    |suffix| <= |s| && s[|s| - |suffix|..] == suffix
  }

  /** Lines 117-141: the status text, from the full template when there were
      more tests than positive results and from the partial one otherwise. */
  function ComposeStatus(stateName: Option<string>, friendly: string, positives: int, tests: int,
                         hospitalizations: int, deaths: int, fixed1: real -> string): (status: string)
    ensures UseFullTemplate(positives, tests) ==>
      Format(TweetTemplateFull, FullArgs(stateName, friendly, positives, tests, hospitalizations, deaths), fixed1)
        == Some(status)
    ensures !UseFullTemplate(positives, tests) ==>
      Format(TweetTemplatePartial, PartialArgs(stateName, friendly, positives, hospitalizations, deaths), fixed1)
        == Some(status)
  {
    if UseFullTemplate(positives, tests) then
      FullTemplateFormat(stateName, friendly, positives, tests, hospitalizations, deaths, fixed1);
      FullText(stateName, friendly, positives, tests, hospitalizations, deaths, fixed1)
    else
      PartialTemplateFormat(stateName, friendly, positives, hospitalizations, deaths, fixed1);
      PartialText(stateName, friendly, positives, hospitalizations, deaths)
  }

  lemma FullTemplateFormat(stateName: Option<string>, friendly: string, positives: int, tests: int,
                           hospitalizations: int, deaths: int, fixed1: real -> string)
    ensures Format(TweetTemplateFull, FullArgs(stateName, friendly, positives, tests, hospitalizations, deaths), fixed1)
      == Some(FullText(stateName, friendly, positives, tests, hospitalizations, deaths, fixed1))
  {
    var pct := Percentage(positives, tests);
    FullMiddleFormat(tests, pct, hospitalizations, deaths, fixed1);
    OpeningFormat(stateName, friendly, positives, FullMiddle,
                  [Int(tests), Float(pct), Int(hospitalizations), Int(deaths)],
                  FullMiddleText(tests, fixed1(pct), hospitalizations, deaths), fixed1);
  }

  lemma PartialTemplateFormat(stateName: Option<string>, friendly: string, positives: int,
                              hospitalizations: int, deaths: int, fixed1: real -> string)
    ensures Format(TweetTemplatePartial, PartialArgs(stateName, friendly, positives, hospitalizations, deaths), fixed1)
      == Some(PartialText(stateName, friendly, positives, hospitalizations, deaths))
  {
    PartialMiddleFormat(hospitalizations, deaths, fixed1);
    OpeningFormat(stateName, friendly, positives, PartialMiddle, [Int(hospitalizations), Int(deaths)],
                  PartialMiddleText(hospitalizations, deaths), fixed1);
  }

  /** The opening writes the state, the date and the positive count in front
      of whatever the rest of the template writes. */
  lemma OpeningFormat(stateName: Option<string>, friendly: string, positives: int,
                      rest: string, args: seq<Arg>, out: string, fixed1: real -> string)
    requires Format(rest, args, fixed1) == Some(out)
    ensures Format(Opening(rest), OpeningArgs(stateName, friendly, positives, args), fixed1)
         == Some(OpeningText(stateName, friendly, positives, out))
  {
    OpeningPlain();
    OpeningShape(" COVID-19 numbers for ", ": ", StateArg(stateName), StateText(stateName),
                 friendly, positives, rest, args, out, fixed1);
  }

  /** The part only the full template has: tests and percentage. */
  lemma FullMiddleFormat(tests: int, pct: real, hospitalizations: int, deaths: int, fixed1: real -> string)
    ensures Format(FullMiddle, [Int(tests), Float(pct), Int(hospitalizations), Int(deaths)], fixed1)
         == Some(FullMiddleText(tests, fixed1(pct), hospitalizations, deaths))
  {
    var tail := [Int(hospitalizations), Int(deaths)];
    TailFormat(hospitalizations, deaths, fixed1);
    assert Format(FullMiddle, [Int(tests), Float(pct)] + tail, fixed1)
        == Some(FullMiddleText(tests, fixed1(pct), hospitalizations, deaths)) by {
      FullMiddlePlain();
      MiddleShape(" new positive case(s) out of ", " test(s) (", "); ", tests, pct,
                  TemplateTail, tail, TailText(hospitalizations, deaths), fixed1);
    }
    assert [Int(tests), Float(pct)] + tail == [Int(tests), Float(pct), Int(hospitalizations), Int(deaths)];
  }

  /** The part only the partial template has. */
  lemma PartialMiddleFormat(hospitalizations: int, deaths: int, fixed1: real -> string)
    ensures Format(PartialMiddle, [Int(hospitalizations), Int(deaths)], fixed1)
         == Some(PartialMiddleText(hospitalizations, deaths))
  {
    TailFormat(hospitalizations, deaths, fixed1);
    assert Format(PartialMiddle, [Int(hospitalizations), Int(deaths)], fixed1)
        == Prepend(" new positive case(s); ", Format(TemplateTail, [Int(hospitalizations), Int(deaths)], fixed1)) by {
      PartialMiddlePlain();
      FormatText(" new positive case(s); ", TemplateTail, [Int(hospitalizations), Int(deaths)], fixed1);
    }
  }

  /** The tail both templates share: hospitalizations, deaths and hashtags. */
  lemma TailFormat(hospitalizations: int, deaths: int, fixed1: real -> string)
    ensures Format(TemplateTail, [Int(hospitalizations), Int(deaths)], fixed1) == Some(TailText(hospitalizations, deaths))
  {
    TailPlain();
    TailShape(" new hospitalization(s); ", " new death(s). #coronavirus #covid19",
              hospitalizations, deaths, fixed1);
  }

  // The plain text between the conversions holds no `%`.

  lemma OpeningPlain()
    ensures NoPercent(" COVID-19 numbers for ") && NoPercent(": ")
  {
  }

  lemma FullMiddlePlain()
    ensures NoPercent(" new positive case(s) out of ") && NoPercent(" test(s) (") && NoPercent("); ")
  {
  }

  lemma PartialMiddlePlain()
    ensures NoPercent(" new positive case(s); ")
  {
  }

  lemma TailPlain()
    ensures NoPercent(" new hospitalization(s); ") && NoPercent(" new death(s). #coronavirus #covid19")
  {
  }

  // The three shapes the templates are made of, over their plain text.

  lemma OpeningShape(afterState: string, afterDate: string, state: Arg, stateText: string,
                     friendly: string, positives: int, rest: string, args: seq<Arg>, out: string,
                     fixed1: real -> string)
    requires NoPercent(afterState) && NoPercent(afterDate)
    requires StrText(state) == Some(stateText)
    requires Format(rest, args, fixed1) == Some(out)
    ensures Format("%s" + (afterState + ("%s" + (afterDate + ("%d" + rest)))),
                   [state, Str(friendly), Int(positives)] + args, fixed1)
         == Some(stateText + (afterState + (friendly + (afterDate + (IntToString(positives) + out)))))
  {
    var a2 := [Str(friendly), Int(positives)] + args;
    var s2, o2 := "%s" + (afterDate + ("%d" + rest)), friendly + (afterDate + (IntToString(positives) + out));
    assert Format(s2, a2, fixed1) == Some(o2) by {
      DateShape(afterDate, friendly, positives, rest, args, out, fixed1);
    }
    var s1, o1 := afterState + s2, afterState + o2;
    assert Format(s1, a2, fixed1) == Some(o1) by {
      FormatText(afterState, s2, a2, fixed1);
    }
    FormatStr(s1, state, a2, fixed1);
    assert [state, Str(friendly), Int(positives)] + args == [state] + a2;
  }

  /** The date and the positives, in the opening. */
  lemma DateShape(afterDate: string, friendly: string, positives: int, rest: string, args: seq<Arg>,
                  out: string, fixed1: real -> string)
    requires NoPercent(afterDate)
    requires Format(rest, args, fixed1) == Some(out)
    ensures Format("%s" + (afterDate + ("%d" + rest)), [Str(friendly), Int(positives)] + args, fixed1)
         == Some(friendly + (afterDate + (IntToString(positives) + out)))
  {
    var a3 := [Int(positives)] + args;
    var s4, o4 := "%d" + rest, IntToString(positives) + out;
    assert Format(s4, a3, fixed1) == Some(o4) by {
      FormatInt(rest, positives, args, fixed1);
    }
    var s3, o3 := afterDate + s4, afterDate + o4;
    assert Format(s3, a3, fixed1) == Some(o3) by {
      FormatText(afterDate, s4, a3, fixed1);
    }
    FormatStr(s3, Str(friendly), a3, fixed1);
    assert [Str(friendly), Int(positives)] + args == [Str(friendly)] + a3;
  }

  lemma MiddleShape(beforeTests: string, afterTests: string, afterPercent: string, tests: int, pct: real,
                    rest: string, args: seq<Arg>, out: string, fixed1: real -> string)
    requires NoPercent(beforeTests) && NoPercent(afterTests) && NoPercent(afterPercent)
    requires Format(rest, args, fixed1) == Some(out)
    ensures Format(beforeTests + ("%d" + (afterTests + ("%.1f" + ("%%" + (afterPercent + rest))))),
                   [Int(tests), Float(pct)] + args, fixed1)
         == Some(beforeTests + (IntToString(tests) + (afterTests + (fixed1(pct) + ("%" + (afterPercent + out))))))
  {
    var a5 := [Float(pct)] + args;
    var s7 := afterTests + ("%.1f" + ("%%" + (afterPercent + rest)));
    var o7 := afterTests + (fixed1(pct) + ("%" + (afterPercent + out)));
    RateShape(afterTests, afterPercent, pct, rest, args, out, fixed1);
    var s6, o6 := "%d" + s7, IntToString(tests) + o7;
    assert Format(s6, [Int(tests)] + a5, fixed1) == Some(o6) by {
      FormatInt(s7, tests, a5, fixed1);
    }
    FormatText(beforeTests, s6, [Int(tests)] + a5, fixed1);
    assert [Int(tests), Float(pct)] + args == [Int(tests)] + a5;
  }

  lemma RateShape(afterTests: string, afterPercent: string, pct: real,
                  rest: string, args: seq<Arg>, out: string, fixed1: real -> string)
    requires NoPercent(afterTests) && NoPercent(afterPercent)
    requires Format(rest, args, fixed1) == Some(out)
    ensures Format(afterTests + ("%.1f" + ("%%" + (afterPercent + rest))), [Float(pct)] + args, fixed1)
         == Some(afterTests + (fixed1(pct) + ("%" + (afterPercent + out))))
  {
    var s10, o10 := afterPercent + rest, afterPercent + out;
    assert Format(s10, args, fixed1) == Some(o10) by {
      FormatText(afterPercent, rest, args, fixed1);
    }
    var s9, o9 := "%%" + s10, "%" + o10;
    assert Format(s9, args, fixed1) == Some(o9) by {
      FormatPercent(s10, args, fixed1);
    }
    var s8, o8 := "%.1f" + s9, fixed1(pct) + o9;
    assert Format(s8, [Float(pct)] + args, fixed1) == Some(o8) by {
      FormatFixed(s9, pct, args, fixed1);
    }
    FormatText(afterTests, s8, [Float(pct)] + args, fixed1);
  }

  lemma TailShape(afterFirst: string, afterSecond: string, first: int, second: int, fixed1: real -> string)
    requires NoPercent(afterFirst) && NoPercent(afterSecond)
    ensures Format("%d" + (afterFirst + ("%d" + afterSecond)), [Int(first), Int(second)], fixed1)
         == Some(IntToString(first) + (afterFirst + (IntToString(second) + afterSecond)))
  {
    FormatPlain(afterSecond, [], fixed1);
    FormatInt(afterSecond, second, [], fixed1);
    assert [Int(second)] + [] == [Int(second)];
    FormatText(afterFirst, "%d" + afterSecond, [Int(second)], fixed1);
    FormatInt(afterFirst + ("%d" + afterSecond), first, [Int(second)], fixed1);
    assert [Int(first)] + [Int(second)] == [Int(first), Int(second)];
  }

  // ---------------------------------------------------------------------
  // Properties of the status text.
  // ---------------------------------------------------------------------

  lemma PrefixOf(a: string, b: string, rest: string)
    ensures StartsWith(a + (b + rest), a + b)
  {
    assert a + (b + rest) == (a + b) + rest;
  }

  lemma SuffixOf(a: string, b: string)
    ensures EndsWith(a + b, b)
  {
    assert (a + b)[|a + b| - |b|..] == b;
  }

  lemma EndsWithExtended(a: string, b: string, suffix: string)
    requires EndsWith(b, suffix)
    ensures EndsWith(a + b, suffix)
  {
    assert (a + b)[|a + b| - |suffix|..] == b[|b| - |suffix|..];
  }

  lemma TailEndsWithHashtags(hospitalizations: int, deaths: int)
    ensures EndsWith(TailText(hospitalizations, deaths), " new death(s). " + Hashtags)
  {
    var deathText := " new death(s). #coronavirus #covid19";
    assert " new death(s). " + Hashtags == deathText;
    SuffixOf(IntToString(deaths), deathText);
    EndsWithExtended(" new hospitalization(s); ", IntToString(deaths) + deathText, deathText);
    EndsWithExtended(IntToString(hospitalizations), " new hospitalization(s); " + (IntToString(deaths) + deathText), deathText);
  }

  /** Every status opens with the state's name and closes with the deaths
      and the two hashtags. */
  lemma StatusFraming(stateName: Option<string>, friendly: string, positives: int, tests: int,
                      hospitalizations: int, deaths: int, fixed1: real -> string)
    ensures StartsWith(ComposeStatus(stateName, friendly, positives, tests, hospitalizations, deaths, fixed1),
                       StateText(stateName) + " COVID-19 numbers for ")
    ensures EndsWith(ComposeStatus(stateName, friendly, positives, tests, hospitalizations, deaths, fixed1),
                     " new death(s). " + Hashtags)
  {
    var suffix := " new death(s). " + Hashtags;
    var tail := TailText(hospitalizations, deaths);
    TailEndsWithHashtags(hospitalizations, deaths);
    var middle: string;
    if UseFullTemplate(positives, tests) {
      middle := FullMiddleText(tests, fixed1(Percentage(positives, tests)), hospitalizations, deaths);
      FullMiddleEnds(tests, fixed1(Percentage(positives, tests)), tail, suffix);
    } else {
      middle := PartialMiddleText(hospitalizations, deaths);
      EndsWithExtended(" new positive case(s); ", tail, suffix);
    }
    OpeningEnds(stateName, friendly, positives, middle, suffix);
    PrefixOf(StateText(stateName), " COVID-19 numbers for ", friendly + (": " + (IntToString(positives) + middle)));
  }

  lemma FullMiddleEnds(tests: int, percentText: string, tail: string, suffix: string)
    requires EndsWith(tail, suffix)
    ensures EndsWith(" new positive case(s) out of " + (IntToString(tests) + (" test(s) (" +
                     (percentText + ("%" + ("); " + tail))))), suffix)
  {
    var t := "); " + tail;
    EndsWithExtended("); ", tail, suffix);
    EndsWithExtended("%", t, suffix);
    t := "%" + t;
    EndsWithExtended(percentText, t, suffix);
    t := percentText + t;
    EndsWithExtended(" test(s) (", t, suffix);
    t := " test(s) (" + t;
    EndsWithExtended(IntToString(tests), t, suffix);
    t := IntToString(tests) + t;
    EndsWithExtended(" new positive case(s) out of ", t, suffix);
  }

  lemma OpeningEnds(stateName: Option<string>, friendly: string, positives: int, t: string, suffix: string)
    requires EndsWith(t, suffix)
    ensures EndsWith(OpeningText(stateName, friendly, positives, t), suffix)
  {
    var u := IntToString(positives) + t;
    EndsWithExtended(IntToString(positives), t, suffix);
    EndsWithExtended(": ", u, suffix);
    u := ": " + u;
    EndsWithExtended(friendly, u, suffix);
    u := friendly + u;
    EndsWithExtended(" COVID-19 numbers for ", u, suffix);
    u := " COVID-19 numbers for " + u;
    EndsWithExtended(StateText(stateName), u, suffix);
  }

  /** The partial template shows neither the number of tests nor a
      percentage: the status does not depend on them. */
  lemma PartialIgnoresTests(stateName: Option<string>, friendly: string, positives: int, tests1: int, tests2: int,
                            hospitalizations: int, deaths: int, fixed1: real -> string, fixed2: real -> string)
    requires !UseFullTemplate(positives, tests1) && !UseFullTemplate(positives, tests2)
    ensures ComposeStatus(stateName, friendly, positives, tests1, hospitalizations, deaths, fixed1)
         == ComposeStatus(stateName, friendly, positives, tests2, hospitalizations, deaths, fixed2)
  {
  }

  /** The full template is used with zero tests only for a negative number
      of positive results, and then shows 0.0 percent instead of dividing. */
  lemma ZeroTestsPercentage(positives: int)
    ensures UseFullTemplate(positives, 0) <==> positives < 0
    ensures Percentage(positives, 0) == 0.0
  {
  }

  /** With a nonnegative number of positives out of more tests, the
      percentage lies in [0, 100). */
  lemma PercentageBounds(positives: int, tests: int)
    requires 0 <= positives && UseFullTemplate(positives, tests)
    ensures 0.0 <= Percentage(positives, tests) < 100.0
  {
    var p, t := positives as real, tests as real;
    assert Percentage(positives, tests) == p / t * 100.0;
    assert 0.0 <= p / t < 1.0;
  }

  // ---------------------------------------------------------------------
  // The whole stage.
  // ---------------------------------------------------------------------

  /** `int(value)` for a JSON number; `int(None)` raises, and so does `int`
      of a string in this model. */
  function ToInt(key: string, v: Value): (r: Result<int, Failure>)
    ensures r.Success? <==> v.Number?
    ensures r.Success? ==> r.value == v.n
    ensures r.Failure? ==> r.error == NotAnInteger(key)
  {
    match v
    case Number(n) => Success(n)
    case _ => Failure(NotAnInteger(key))
  }

  /** Line 102: `datetime.strptime(last_updated, "%m/%d/%Y %H:%M")`. */
  function ParseUpdated(v: Value): (r: Result<DateTime, Failure>)
    ensures r.Success? <==> v.Text? && ParseLastUpdate(v.s).Success?
    ensures r.Success? ==> ValidDateTime(r.value) && r.value == ParseLastUpdate(v.s).value
    ensures r.Failure? && v.Text? ==> r.error == BadTimestamp(ParseLastUpdate(v.s).error)
    ensures r.Failure? && !v.Text? ==> r.error == TimestampNotText
  {
    match v
    case Text(s) =>
      (match ParseLastUpdate(s)
       case Success(t) => Success(t)
       case Failure(e) => Failure(BadTimestamp(e)))
    case _ => Failure(TimestampNotText)
  }

  /** Line 105: `updated - timedelta(days=1)`, keeping only the date; the day
      before 0001-01-01 is out of range. */
  function AsOfDate(updated: DateTime): (r: Result<Date, Failure>)
    requires ValidDateTime(updated)
    ensures r.Success? <==> updated.date != FirstDate
    ensures r.Success? ==> ValidDate(r.value) && Ordinal(r.value) == Ordinal(updated.date) - 1
    ensures r.Failure? ==> r.error == DateOverflow
  {
    if updated.date == FirstDate then Failure(DateOverflow)
    else
      PreviousDayOrdinal(updated.date);
      Success(PreviousDay(updated.date))
  }

  /** Lines 95-141: the status text for one API response, or the exception
      that stops `main()` before a status exists. A status is composed
      exactly for the well-formed responses, and it is the one for the day
      before the update, with the counts as reported except that a negative
      death count shows as 0. */
  function Transform(response: Response, stateName: Option<string>, fixed1: real -> string)
    : (r: Result<string, Failure>)
    ensures r.Success? <==> WellFormed(response)
    ensures WellFormed(response) ==>
      ValidDate(ReportedDate(response))
      && r.value == ComposeStatus(stateName, FriendlyDate(ReportedDate(response)),
                                  response[PositiveIncreaseKey].n, response[TestIncreaseKey].n,
                                  response[HospitalizedIncreaseKey].n,
                                  ClampDeaths(response[DeathIncreaseKey].n), fixed1)
  {
    var fields :- ExtractFields(response);
    var updated :- ParseUpdated(fields.lastUpdated);
    var asOf :- AsOfDate(updated);
    var friendly := FriendlyDate(asOf);
    var deaths :- ToInt(DeathIncreaseKey, fields.deaths);
    var positives :- ToInt(PositiveIncreaseKey, fields.positiveTests);
    var tests :- ToInt(TestIncreaseKey, fields.tests);
    var hospitalizations :- ToInt(HospitalizedIncreaseKey, fields.hospitalizations);
    Success(ComposeStatus(stateName, friendly, positives, tests, hospitalizations, ClampDeaths(deaths), fixed1))
  }

  /** The as-of date of a well-formed response: the day before the update. */
  function ReportedDate(response: Response): Date
    requires WellFormed(response)
  {
    PreviousDay(ParseLastUpdate(response[LastUpdateKey].s).value.date)
  }

  /** The responses `Transform` turns into a status. */
  predicate WellFormed(response: Response) {
    && FieldKeys() <= response.Keys
    && response[LastUpdateKey].Text?
    && ParseLastUpdate(response[LastUpdateKey].s).Success?
    && ParseLastUpdate(response[LastUpdateKey].s).value.date != FirstDate
    && response[DeathIncreaseKey].Number?
    && response[PositiveIncreaseKey].Number?
    && response[TestIncreaseKey].Number?
    && response[HospitalizedIncreaseKey].Number?
  }

  /** A missing key stops the stage with a `KeyError` for the first key read. */
  lemma MissingKeyFails(response: Response, stateName: Option<string>, fixed1: real -> string)
    requires !(FieldKeys() <= response.Keys)
    ensures Transform(response, stateName, fixed1) == Failure(MissingKey(FirstMissingKey(response)))
    ensures FirstMissingKey(response) in FieldKeys() - response.Keys
  {
  }

  /** A timestamp that does not parse stops the stage with the parser's error. */
  lemma BadTimestampFails(response: Response, stateName: Option<string>, fixed1: real -> string)
    requires FieldKeys() <= response.Keys && response[LastUpdateKey].Text?
    requires ParseLastUpdate(response[LastUpdateKey].s).Failure?
    ensures Transform(response, stateName, fixed1)
         == Failure(BadTimestamp(ParseLastUpdate(response[LastUpdateKey].s).error))
  {
  }

  /** The hour and minute of the update do not show in the status. */
  lemma TimeOfDayIrrelevant(response: Response, s1: string, s2: string,
                            stateName: Option<string>, fixed1: real -> string)
    requires ParseLastUpdate(s1).Success? && ParseLastUpdate(s2).Success?
    requires ParseLastUpdate(s1).value.date == ParseLastUpdate(s2).value.date
    ensures Transform(response[LastUpdateKey := Text(s1)], stateName, fixed1)
         == Transform(response[LastUpdateKey := Text(s2)], stateName, fixed1)
  {
    var r1, r2 := response[LastUpdateKey := Text(s1)], response[LastUpdateKey := Text(s2)];
    assert r1.Keys == r2.Keys;
    if FieldKeys() <= r1.Keys {
      assert forall k :: k in FieldKeys() && k != LastUpdateKey ==> r1[k] == r2[k];
      assert ParseUpdated(r1[LastUpdateKey]).value.date == ParseUpdated(r2[LastUpdateKey]).value.date;
      SameDateSameStatus(r1, r2, stateName, fixed1);
    } else {
      SameKeysSameFailure(r1, r2, stateName, fixed1);
    }
  }

  /** Responses lacking the same keys fail alike. */
  lemma SameKeysSameFailure(r1: Response, r2: Response, stateName: Option<string>, fixed1: real -> string)
    requires r1.Keys == r2.Keys && !(FieldKeys() <= r1.Keys)
    ensures Transform(r1, stateName, fixed1) == Transform(r2, stateName, fixed1)
  {
    MissingKeyFails(r1, stateName, fixed1);
    MissingKeyFails(r2, stateName, fixed1);
    assert FirstMissingKey(r1) == FirstMissingKey(r2);
  }

  lemma SameDateSameStatus(r1: Response, r2: Response, stateName: Option<string>, fixed1: real -> string)
    requires FieldKeys() <= r1.Keys && FieldKeys() <= r2.Keys
    requires forall k :: k in FieldKeys() && k != LastUpdateKey ==> r1[k] == r2[k]
    requires ParseUpdated(r1[LastUpdateKey]).Success? && ParseUpdated(r2[LastUpdateKey]).Success?
    requires ParseUpdated(r1[LastUpdateKey]).value.date == ParseUpdated(r2[LastUpdateKey]).value.date
    ensures Transform(r1, stateName, fixed1) == Transform(r2, stateName, fixed1)
  {
    var u1, u2 := ParseUpdated(r1[LastUpdateKey]).value, ParseUpdated(r2[LastUpdateKey]).value;
    assert AsOfDate(u1) == AsOfDate(u2);
  }

  /** The weekday named in the status is the one before the update's. */
  lemma ReportedWeekday(response: Response)
    requires WellFormed(response)
    ensures Weekday(ReportedDate(response))
         == (Weekday(ParseLastUpdate(response[LastUpdateKey].s).value.date) + 6) % 7
  {
    WeekdayOfPreviousDay(ParseLastUpdate(response[LastUpdateKey].s).value.date);
  }

  // ---------------------------------------------------------------------
  // Publishing.
  // ---------------------------------------------------------------------

  /** Line 147: only the exact text "True" turns posting on; an unset
      variable and any other spelling leave it off. */
  function ShouldTweet(sendTweet: Option<string>): (post: bool)
    ensures post ==> sendTweet.Some? && sendTweet.value == "True"
    ensures sendTweet == None ==> !post
    ensures sendTweet == Some("true") || sendTweet == Some("1") ==> !post
  {
    sendTweet == Some("True")
  }

  /** How one run of `main()` ends: an exception (which the entry point
      logs) or a composed status, posted or not. */
  datatype RunOutcome = Crashed(failure: Failure) | Completed(status: string, tweeted: bool)

  /** Lines 95-160 without the I/O: compose, then post when enabled. */
  function Run(response: Response, config: Config, fixed1: real -> string): (outcome: RunOutcome)
    ensures outcome.Completed? <==> WellFormed(response)
    ensures outcome.Completed? ==>
      outcome.status == ComposeStatus(config.stateName, FriendlyDate(ReportedDate(response)),
                                      response[PositiveIncreaseKey].n, response[TestIncreaseKey].n,
                                      response[HospitalizedIncreaseKey].n,
                                      ClampDeaths(response[DeathIncreaseKey].n), fixed1)
    ensures outcome.Completed? ==> (outcome.tweeted <==> config.sendTweet == Some("True"))
    ensures outcome.Crashed? ==> outcome.failure == Transform(response, config.stateName, fixed1).error
  {
    match Transform(response, config.stateName, fixed1)
    case Failure(e) => Crashed(e)
    case Success(status) => Completed(status, ShouldTweet(config.sendTweet))
  }

  /** A status is posted exactly when one was composed and posting is on;
      with posting off the status is still composed. */
  lemma PostOnlyWhenEnabled(response: Response, config: Config, fixed1: real -> string)
    ensures Run(response, config, fixed1).Completed? && Run(response, config, fixed1).tweeted
        <==> WellFormed(response) && config.sendTweet == Some("True")
    ensures WellFormed(response) && config.sendTweet != Some("True") ==>
        Run(response, config, fixed1).Completed? && !Run(response, config, fixed1).tweeted
  {
  }

  // ---------------------------------------------------------------------
  // A worked example.
  // ---------------------------------------------------------------------

  /** A feed updated at 14:30 on Wednesday, May 20, 2020, reporting a
      correction of two deaths, posted for "NY". */
  const ExampleResponse: Response := map[
    DeathIncreaseKey := Number(-2),
    HospitalizedIncreaseKey := Number(15),
    LastUpdateKey := Text("05/20/2020 14:30"),
    PositiveIncreaseKey := Number(120),
    TestIncreaseKey := Number(900)]

  lemma ExampleTimestamp()
    ensures ParseLastUpdate("05/20/2020 14:30") == Success(DateTime(Date(2020, 5, 20), 14, 30))
  {
    var t := DateTime(Date(2020, 5, 20), 14, 30);
    ExampleWritten();
    ParseFormatRoundTrip(t);
  }

  lemma ExampleWritten()
    ensures FormatTimestamp(DateTime(Date(2020, 5, 20), 14, 30)) == "05/20/2020 14:30"
  {
    var t := DateTime(Date(2020, 5, 20), 14, 30);
    assert TimeWritten(t, Strftime, []) == " 14:30" by {
      PadTwo(14);
      PadTwo(30);
      assert "30" + [] == "30";
      assert ":" + "30" == ":30";
      assert "14" + ":30" == "14:30";
    }
    PadTwo(5);
    PadTwo(20);
    PadYearExample();
    ExampleTimestampText();
  }

  lemma PadTwo(n: nat)
    requires n < 100
    ensures ZeroPad(n, 2) == [DigitChar(n / 10), DigitChar(n % 10)]
  {
    assert ZeroPad(n / 10, 1) == [DigitChar(n / 10)];
  }

  lemma ExampleTimestampText()
    ensures "05" + ("/" + ("20" + ("/" + ("2020" + " 14:30")))) == "05/20/2020 14:30"
  {
    assert "2020" + " 14:30" == "2020 14:30";
    assert "/" + "2020 14:30" == "/2020 14:30";
    assert "20" + "/2020 14:30" == "20/2020 14:30";
    assert "/" + "20/2020 14:30" == "/20/2020 14:30";
  }

  lemma ExampleFields()
    ensures FieldKeys() <= ExampleResponse.Keys
    ensures ExampleResponse[DeathIncreaseKey] == Number(-2)
    ensures ExampleResponse[HospitalizedIncreaseKey] == Number(15)
    ensures ExampleResponse[LastUpdateKey] == Text("05/20/2020 14:30")
    ensures ExampleResponse[PositiveIncreaseKey] == Number(120)
    ensures ExampleResponse[TestIncreaseKey] == Number(900)
  {
  }

  lemma ExampleNumbers()
    ensures IntToString(120) == "120" && IntToString(900) == "900"
    ensures IntToString(15) == "15" && IntToString(0) == "0"
    ensures Percentage(120, 900) == 40.0 / 3.0
  {
    assert NatToString(12) == "12";
    assert NatToString(90) == "90";
  }

  /** The whole stage on the example: the status reports Tuesday, May 19,
      shows the negative death count as 0, uses the full template because
      120 < 900, and is posted because SEND_TWEET is "True". */
  lemma EndToEndExample(fixed1: real -> string)
    requires fixed1(40.0 / 3.0) == "13.3"
    ensures Run(ExampleResponse, Config(Some("NY"), Some("True")), fixed1) == Completed(
      "NY" + (" COVID-19 numbers for " + ("Tuesday, May 19, 2020" + (": " + ("120" +
      (" new positive case(s) out of " + ("900" + (" test(s) (" + ("13.3" + ("%" + ("); " +
      ("15" + (" new hospitalization(s); " + ("0" + " new death(s). #coronavirus #covid19"))))))))))))),
      true)
  {
    ExampleTimestamp();
    ExampleFields();
    assert WellFormed(ExampleResponse);
    assert ReportedDate(ExampleResponse) == Date(2020, 5, 19);
    var status := ComposeStatus(Some("NY"), FriendlyDate(Date(2020, 5, 19)), 120, 900, 15, ClampDeaths(-2), fixed1);
    assert Transform(ExampleResponse, Some("NY"), fixed1) == Success(status);
    assert ShouldTweet(Some("True"));
    ExampleNumbers();
    FriendlyDateExample();
    assert status == FullText(Some("NY"), "Tuesday, May 19, 2020", 120, 900, 15, 0, fixed1);
  }
}
