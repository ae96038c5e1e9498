# State COVID-19 Twitter bot: the transform stage, in Dafny

`twitter_bot.py` fetches one state's record from the COVID Tracking Project
API, turns it into a one-line status and, when `SEND_TWEET` is `"True"`,
posts it to Twitter. This project models the part in between: from the
decoded JSON record to the status text and the decision to post it.

The model follows the stage step by step:

- `TwitterBot.ExtractFields` reads the five keys (`deathIncrease`,
  `hospitalizedIncrease`, `lastUpdateEt`, `positiveIncrease`,
  `totalTestResultsIncrease`) in the order the source reads them; the first
  missing one ends the run with a `KeyError`.
- `Timestamp.ParseLastUpdate` is `datetime.strptime(text, "%m/%d/%Y %H:%M")`,
  field by field as CPython's `_strptime` builds its regular expression
  (leading zeros optional, a blank standing for a leading zero of the day,
  any run of whitespace between date and time), with its four `ValueError`s:
  no match, unconverted data, year 0, day out of range.
- `Calendar` is the proleptic Gregorian calendar of Python's `datetime`
  (years 1 to 9999, day 1 = 0001-01-01, Monday = 0). `PreviousDay` is
  `- timedelta(days=1)`; before 0001-01-01 it raises `OverflowError`.
- `Friendly.FriendlyDate` is `strftime("%A, %B %d, %Y")` in English.
- `Printf.Format` is Python's `template % args` for `%s`, `%d`, `%.1f` and
  `%%`, consuming one argument per conversion and failing on too many or too
  few. The digits `%.1f` writes for a float are the parameter `fixed1`.
- `TwitterBot.ComposeStatus` picks the full template when there were more
  tests than positive results, the partial one otherwise, with negative
  death counts shown as 0 (`ClampDeaths`) and the positive rate 0.0 when
  there were no tests (`Percentage`).
- `TwitterBot.Transform` chains these as `main()` does; each exception the
  stage raises on the inputs represented here is a `Failure` value (except
  the `OverflowError` of line 126, see below). `TwitterBot.Run` adds the `SEND_TWEET` decision and the
  entry point's catch-all: an exception means nothing is posted.

The environment settings `STATE_NAME` and `SEND_TWEET` are parameters
(`Config`); an unset `STATE_NAME` is written as `None`, as `%s` writes it.

Files: `results.dfy` (Option, Result), `calendar.dfy`, `decimal.dfy`
(decimal text of integers), `timestamp.dfy`, `friendly.dfy`, `printf.dfy`,
`twitter_bot.dfy`.

## Model

| member | source | states |
|---|---|---|
| Calendar.DaysInMonth | twitter_bot.py:105 | month lengths lie in 28..31; a month has 29 days exactly when it is February of a leap year and 28 exactly when it is February of a common year |
| Calendar.PreviousDay | twitter_bot.py:105 | the day before a valid date other than 0001-01-01 is a valid date that comes strictly earlier |
| Calendar.OrdinalMonotone | twitter_bot.py:105 | the day number orders dates: a date precedes another exactly when its day number is smaller |
| Calendar.OrdinalInjective | twitter_bot.py:105 | two valid dates have the same day number exactly when they are equal |
| Calendar.PreviousDayOrdinal | twitter_bot.py:105 | subtracting one day lowers the day number by exactly one |
| Calendar.PreviousDayUnique | twitter_bot.py:105 | the previous day is the only valid date whose day number is one less |
| Calendar.PreviousNextInverse | twitter_bot.py:105 | stepping one day back and one day forward, in either order, returns the same date |
| Calendar.PreviousDayOfMonthStart | twitter_bot.py:105 | the 1st of February..December steps back to the last day of the previous month |
| Calendar.PreviousDayOfNewYear | twitter_bot.py:105 | January 1 steps back to December 31 of the previous year |
| Calendar.PreviousDayOfMarchFirst | twitter_bot.py:105 | March 1 steps back to February 29 exactly in leap years and to February 28 exactly in common years |
| Calendar.Weekday | twitter_bot.py:108 | the weekday index lies in 0..6 |
| Calendar.FirstDateIsMonday | twitter_bot.py:108 | 0001-01-01 is a Monday |
| Calendar.WeekdayOfPreviousDay | twitter_bot.py:105-108 | the previous day's weekday is one less, modulo 7 |
| Calendar.WeekdayUnique | twitter_bot.py:108 | any weekday numbering that starts with Monday on 0001-01-01 and advances by one per day equals `Weekday` on every date |
| Calendar.GregorianCycle | twitter_bot.py:108 | 400 years later the same month and day is 146097 days later and falls on the same weekday |
| Calendar.TuesdayExample | twitter_bot.py:108 | May 19, 2020 is a Tuesday |
| Decimal.IntToString | twitter_bot.py:121-141 | the `%d` text of an integer reads back as that integer, starts with '-' exactly for negative numbers, and has no leading zero |
| Decimal.ZeroPad | twitter_bot.py:108 | a zero-padded field has exactly the field width, only digits, and denotes the number |
| Decimal.DecimalValueInjective | twitter_bot.py:50 | digit strings of the same width that denote the same number are the same text, so a zero-padded field is determined by its value |
| Timestamp.MonthField | twitter_bot.py:50 | `%m` yields a month in 1..12, and the text it consumes (one or two characters) is that month written with or without its leading zero |
| Timestamp.DayField | twitter_bot.py:50 | `%d` yields a day in 1..31, and the text it consumes (one or two characters) is that day written with its leading zero, without it, or with a blank in its place |
| Timestamp.YearField | twitter_bot.py:50 | `%Y` yields a year in 0..9999, read from exactly four digits off the front of the text |
| Timestamp.HourField | twitter_bot.py:50 | `%H` yields an hour in 0..23, and the text it consumes (one or two characters) is that hour written with or without its leading zero |
| Timestamp.MinuteField | twitter_bot.py:50 | `%M` yields a minute in 0..59, and the text it consumes (one or two characters) is that minute written with or without its leading zero |
| Timestamp.SkipSpaces | twitter_bot.py:50 | the skipped prefix is all whitespace and what remains starts with none |
| Timestamp.Blanks | twitter_bot.py:50 | the blank of the format matches exactly when the text starts with whitespace, and then consumes the whole run of whitespace |
| Timestamp.MatchFormat | twitter_bot.py:102 | a match has every field within the range its pattern allows |
| Timestamp.ParseLastUpdate | twitter_bot.py:102 | a parsed timestamp is a valid date and time, and parsing succeeds exactly when the text matches and its fields form a real date |
| Timestamp.MonthFieldOf | twitter_bot.py:50 | `%m` reads back a month written with or without its leading zero, when no digit follows |
| Timestamp.DayFieldOf | twitter_bot.py:50 | `%d` reads back a day written with its leading zero, without it, or with a blank in its place, when no digit follows |
| Timestamp.HourFieldOf | twitter_bot.py:50 | `%H` reads back an hour written with or without its leading zero, when no digit follows |
| Timestamp.MinuteFieldOf | twitter_bot.py:50 | `%M` reads back a zero-padded or two-digit minute followed by anything, and a one-digit minute when no digit follows |
| Timestamp.BlanksOfGap | twitter_bot.py:50 | the blank of the format consumes any run of whitespace up to the digit after it |
| Timestamp.MatchWritten | twitter_bot.py:102 | the expression reads back every field of a timestamp written in any layout it accepts (leading zeros or not, a blank for the day's zero, any run of whitespace before the time), and any text after the minute is unconverted data |
| Timestamp.ParseWritten | twitter_bot.py:102 | on a timestamp written in any accepted layout, strptime refuses trailing text, then year 0, then a day past the month's end, and otherwise returns the fields |
| Timestamp.ParseFormatRoundTrip | twitter_bot.py:102 | parsing the zero-padded text of a valid date and time gives it back |
| Timestamp.MatchedDate | twitter_bot.py:50 | the text `%m/%d/%Y` accepts is the month, day and year it yields, written in an accepted padding, followed by the rest |
| Timestamp.MatchedTime | twitter_bot.py:50 | the text ` %H:%M` accepts is a whitespace run and then the hour and minute it yields, written with or without leading zeros, and nothing else |
| Timestamp.MatchedIsWritten | twitter_bot.py:102 | the converse of `MatchWritten`: every text the expression accepts is the writing of the date and time it yields in some accepted layout |
| Timestamp.ParseIffWritten | twitter_bot.py:102 | strptime returns a date and time exactly when the text writes that valid date and time in an accepted layout; every other text is refused |
| Timestamp.DoesNotMatchExample | twitter_bot.py:102 | an ISO-style timestamp does not match the format |
| Friendly.FriendlyDate | twitter_bot.py:108 | the friendly date can be read back into the date it was written from, its weekday name agreeing with the calendar |
| Friendly.FriendlyDateInjective | twitter_bot.py:108 | two valid dates have the same friendly text exactly when they are equal |
| Friendly.FriendlyDateExample | twitter_bot.py:108 | May 19, 2020 is written "Tuesday, May 19, 2020" |
| Printf.Format | twitter_bot.py:121-141 | formatting succeeds only when there are exactly as many arguments as the template has conversions |
| Printf.FormatText | twitter_bot.py:121-141 | template text without '%' is copied unchanged in front of the rest |
| Printf.FormatPlain | twitter_bot.py:121-141 | a template without '%' takes no arguments and is written as it stands |
| TwitterBot.ExtractFields | twitter_bot.py:95-99 | all five fields are read exactly when all five keys are present, and otherwise the error names the first missing key in reading order |
| TwitterBot.MissingKeyFails | twitter_bot.py:95-99 | a response lacking any key yields the `KeyError` of the first missing key, which is indeed missing, and no status |
| TwitterBot.ClampDeaths | twitter_bot.py:111-112 | the death count shown is `max(deaths, 0)`: at least 0 and at least the reported count, and equal to one of them |
| TwitterBot.UseFullTemplate | twitter_bot.py:118-126 | the full template is never chosen when positives equal tests, and it divides by zero tests only for a negative positive count, which line 126 guards |
| TwitterBot.Percentage | twitter_bot.py:126 | with tests the rate times the tests is 100 times the positives; without tests it is 0.0 instead of a division |
| TwitterBot.PercentageBounds | twitter_bot.py:126 | whenever the full template applies to a nonnegative positive count, the rate is in [0, 100) |
| TwitterBot.ZeroTestsPercentage | twitter_bot.py:118-126 | zero tests take the full template only for a negative positive count, and then show 0.0 |
| TwitterBot.FullTemplateFormat | twitter_bot.py:121-129 | the full template applied to its seven arguments gives the full status text, with no argument left over |
| TwitterBot.PartialTemplateFormat | twitter_bot.py:135-141 | the partial template applied to its five arguments gives the partial status text, with no argument left over |
| TwitterBot.OpeningFormat | twitter_bot.py:35-43 | both templates open with the state (`None` when unset), " COVID-19 numbers for ", the date, ": " and the positive count, taking three arguments in that order before the rest |
| TwitterBot.TailFormat | twitter_bot.py:35-43 | both templates close with the hospitalizations, " new hospitalization(s); ", the deaths and " new death(s). #coronavirus #covid19", taking exactly the last two arguments |
| TwitterBot.ComposeStatus | twitter_bot.py:117-141 | the status is what Python's `%` makes of the full template and its arguments when positives < tests, and of the partial template and its arguments otherwise |
| TwitterBot.StatusFraming | twitter_bot.py:35-43 | every status starts with the state name followed by " COVID-19 numbers for " and ends with " new death(s). #coronavirus #covid19" |
| TwitterBot.PartialIgnoresTests | twitter_bot.py:132-141 | with the partial template the status depends neither on the number of tests nor on the float formatting |
| TwitterBot.AsOfDate | twitter_bot.py:105 | the as-of date exists exactly when the update is not on 0001-01-01, and then it is a valid date numbered one day before the update's date |
| TwitterBot.Transform | twitter_bot.py:95-141 | a status is composed exactly for well-formed responses (all five keys, four numbers, a timestamp strptime accepts that is not on 0001-01-01), and it is the composition for the day before the update, with the counts as reported except deaths clamped at 0 |
| TwitterBot.BadTimestampFails | twitter_bot.py:102 | a timestamp strptime refuses ends the stage with strptime's error |
| TwitterBot.TimeOfDayIrrelevant | twitter_bot.py:102-108 | two timestamps on the same date give the same outcome, whatever their hour and minute |
| TwitterBot.ReportedWeekday | twitter_bot.py:105-108 | the weekday of the reported date is the update's weekday minus one, modulo 7 |
| TwitterBot.ShouldTweet | twitter_bot.py:147 | posting is on only for the exact string "True": not when SEND_TWEET is unset, nor for "true" or "1" |
| TwitterBot.Run | twitter_bot.py:95-173 | a run completes exactly for well-formed responses, carrying the status for the day before the update, and posts it exactly when SEND_TWEET is "True"; otherwise it ends with the stage's exception |
| TwitterBot.PostOnlyWhenEnabled | twitter_bot.py:146-158 | a status is posted exactly when the response is well-formed and SEND_TWEET is the string "True"; with posting off the status is still composed |
| TwitterBot.EndToEndExample | twitter_bot.py:95-158 | a response updated 05/20/2020 14:30 with 120 positives out of 900 tests, 15 hospitalizations and -2 deaths, posted for "NY" with SEND_TWEET "True", gives (when `%.1f` writes 40/3 as "13.3") "NY COVID-19 numbers for Tuesday, May 19, 2020: 120 new positive case(s) out of 900 test(s) (13.3%); 15 new hospitalization(s); 0 new death(s). #coronavirus #covid19" and posts it |

## Left out

- The HTTP request and URL (twitter_bot.py:80-89): I/O. `STATE_ABBREVIATION` only selects the URL and does not appear in the model.
- JSON decoding: the response is already a map from key to `Number`, `Text` or `Null`; JSON floats, booleans, arrays and objects are not represented.
- TwitterBot.ToInt: `int()` of a numeric string (`int("12")`) succeeds in Python; here every string is refused, because the API delivers counts as JSON numbers.
- TwitterBot.Percentage: exact rational arithmetic; the rounding of Python's float division and multiplication is not modelled, nor the `OverflowError` that `int(positive_tests) / int(tests)` raises when a count is too large for a float (say positives = -10**400 with 5 tests), where the model still composes a status.
- TwitterBot.Percentage: line 126 tests the raw `tests` against 0, not `int(tests)`; the two agree here only because counts are JSON integers (a string "0" or the float 0.5 would behave differently in Python and is not represented).
- The digits `%.1f` writes for a float are not modelled: `fixed1` is a parameter of the formatting.
- Logging (lines 74, 83, 92, 144, 150 and the traceback on line 173): output only.
- Posting through tweepy (lines 153-158): the model records that a post is made; authentication and API errors are not modelled.
- Reading the environment (lines 30-34, 44-47): the two settings the stage uses are parameters.
- Friendly.FriendlyDate: years before 1000 are written with four digits; the platform's `strftime` may write them unpadded.
- Timestamp.ParseLastUpdate: `\d` matches only ASCII digits here; Python also accepts other Unicode decimal digits.
- Printf.Format: only the conversions the two templates use (`%s` of strings, `None` and integers, `%d` of integers, `%.1f` of numbers, `%%`).
