/**
  Python's printf-style string formatting, `template % args`, for the
  conversions the bot's templates use: `%s`, `%d`, `%.1f` and `%%`.

  `Format` reads the template one character at a time, as CPython does, and
  consumes one argument per conversion. It yields `None` where Python raises
  (too few or too many arguments, an argument `%d` cannot take, a `%` that
  starts no known conversion) and also for conversion/argument pairs the bot
  never forms. How a float is written with one decimal is left to the
  caller's `fixed1`.
*/
module Printf {
  import opened Results
  import opened Decimal

  /** One element of the argument tuple. */
  datatype Arg = Str(s: string) | NoneValue | Int(i: int) | Float(x: real)

  function Prepend(prefix: string, rest: Option<string>): (r: Option<string>)
    ensures r.Some? <==> rest.Some?
  {
    match rest
    case None => None
    case Some(s) => Some(prefix + s)
  }

  /** The text `%s` writes: `str(arg)`. */
  function StrText(a: Arg): Option<string> {
    match a
    case Str(s) => Some(s)
    case NoneValue => Some("None")
    case Int(i) => Some(IntToString(i))
    case Float(_) => None
  }

  /** The number of arguments a template consumes: one for each `%s`, `%d`
      and `%.1f`, none for `%%`. Counting stops at a `%` that starts no
      known conversion. */
  function Arity(template: string): nat
    decreases |template|
  {
    if template == [] then 0
    else if template[0] != '%' then Arity(template[1..])
    else if |template| >= 2 && template[1] == '%' then Arity(template[2..])
    else if |template| >= 2 && (template[1] == 's' || template[1] == 'd') then 1 + Arity(template[2..])
    else if |template| >= 4 && template[1..4] == ".1f" then 1 + Arity(template[4..])
    else 0
  }

  /** `template % tuple(args)`: Python raises `TypeError` unless there are
      exactly as many arguments as conversions. */
  function Format(template: string, args: seq<Arg>, fixed1: real -> string): (r: Option<string>)
    ensures r.Some? ==> |args| == Arity(template)
    decreases |template|
  {
    if template == [] then
      if args == [] then Some("") else None
    else if template[0] != '%' then
      Prepend([template[0]], Format(template[1..], args, fixed1))
    else if |template| >= 2 && template[1] == '%' then
      Prepend("%", Format(template[2..], args, fixed1))
    else if |template| >= 2 && template[1] == 's' && args != [] && StrText(args[0]).Some? then
      Prepend(StrText(args[0]).value, Format(template[2..], args[1..], fixed1))
    else if |template| >= 2 && template[1] == 'd' && args != [] && args[0].Int? then
      Prepend(IntToString(args[0].i), Format(template[2..], args[1..], fixed1))
    else if |template| >= 4 && template[1..4] == ".1f" && args != [] && (args[0].Float? || args[0].Int?) then
      var x := if args[0].Float? then args[0].x else args[0].i as real;
      Prepend(fixed1(x), Format(template[4..], args[1..], fixed1))
    else
      None
  }

  predicate NoPercent(s: string) {
    forall k :: 0 <= k < |s| ==> s[k] != '%'
  }

  /** One character other than `%` is copied as it stands. */
  lemma FormatChar(c: char, rest: string, args: seq<Arg>, fixed1: real -> string)
    requires c != '%'
    ensures Format([c] + rest, args, fixed1) == Prepend([c], Format(rest, args, fixed1))
  {
    assert ([c] + rest)[0] == c && ([c] + rest)[1..] == rest;
  }

  lemma PrependTwice(a: string, b: string, o: Option<string>)
    ensures Prepend(a, Prepend(b, o)) == Prepend(a + b, o)
  {
    if o.Some? {
      assert a + (b + o.value) == (a + b) + o.value;
    }
  }

  /** Text without `%` is copied as it stands. */
  lemma {:induction false} FormatText(text: string, rest: string, args: seq<Arg>, fixed1: real -> string)
    requires NoPercent(text)
    ensures Format(text + rest, args, fixed1) == Prepend(text, Format(rest, args, fixed1))
    decreases |text|
  {
    var o := Format(rest, args, fixed1);
    if text == [] {
      assert text + rest == rest;
      assert o.Some? ==> text + o.value == o.value;
    } else {
      var tail := text[1..];
      assert NoPercent(tail) by {
        forall k | 0 <= k < |tail| ensures tail[k] != '%' {
          assert tail[k] == text[k + 1];
        }
      }
      assert text + rest == [text[0]] + (tail + rest);
      assert [text[0]] + tail == text;
      FormatChar(text[0], tail + rest, args, fixed1);
      FormatText(tail, rest, args, fixed1);
      PrependTwice([text[0]], tail, o);
    }
  }

  /** A template without `%` is written as it stands, and takes no
      arguments. */
  lemma FormatPlain(text: string, args: seq<Arg>, fixed1: real -> string)
    requires NoPercent(text)
    ensures Format(text, args, fixed1) == if args == [] then Some(text) else None
  {
    FormatText(text, [], args, fixed1);
    assert text + [] == text;
  }

  /** `%s` writes its argument's text. */
  lemma FormatStr(rest: string, a: Arg, args: seq<Arg>, fixed1: real -> string)
    requires StrText(a).Some?
    ensures Format("%s" + rest, [a] + args, fixed1) == Prepend(StrText(a).value, Format(rest, args, fixed1))
  {
    assert ("%s" + rest)[2..] == rest;
    assert ([a] + args)[1..] == args;
  }

  /** `%d` writes an integer in decimal. */
  lemma FormatInt(rest: string, i: int, args: seq<Arg>, fixed1: real -> string)
    ensures Format("%d" + rest, [Int(i)] + args, fixed1) == Prepend(IntToString(i), Format(rest, args, fixed1))
  {
    assert ("%d" + rest)[2..] == rest;
    assert ([Int(i)] + args)[1..] == args;
  }

  /** `%.1f` writes a number with one decimal. */
  lemma FormatFixed(rest: string, x: real, args: seq<Arg>, fixed1: real -> string)
    ensures Format("%.1f" + rest, [Float(x)] + args, fixed1) == Prepend(fixed1(x), Format(rest, args, fixed1))
  {
    assert ("%.1f" + rest)[1..4] == ".1f";
    assert ("%.1f" + rest)[4..] == rest;
    assert ([Float(x)] + args)[1..] == args;
  }

  /** `%%` writes one percent sign and takes no argument. */
  lemma FormatPercent(rest: string, args: seq<Arg>, fixed1: real -> string)
    ensures Format("%%" + rest, args, fixed1) == Prepend("%", Format(rest, args, fixed1))
  {
    assert ("%%" + rest)[2..] == rest;
  }
}
