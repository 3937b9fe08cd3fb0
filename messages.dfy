/**
  The failure message: its two format templates, the seven arguments every
  dispatcher passes to them in a fixed order, and the example-number prefix.

  A message is kept as the record of its format arguments; the text `fmt`
  would render from it is not modelled, except for the prefix, which is
  built with `%d.` and so is modelled as decimal digits followed by a dot.
*/
module Messages {
  import opened Wrappers
  import opened Values

  /** The template used when the values should have been equal, written
      as one literal per line of the rendered message. */
  const EqualFormat: string :=
    "\n%s:%d: actual should == expected\n" + "%s \thave (%T): %+v\n" + "\twant (%T): %+v"

  /** The template used when the values should have differed. */
  const UnequalFormat: string :=
    "\n%s:%d: actual should != expected\n" + "%s \thave (%T): %+v\n" + "\tand  (%T): %+v"

  datatype Template = Equal | Unequal

  function Format(t: Template): (f: string)
  {
    match t
    case Equal => EqualFormat
    case Unequal => UnequalFormat
  }

  /** A report's format arguments. `have` is the expected value and `want`
      the actual one, in the order the dispatchers pass them. */
  datatype Message = Message(
    template: Template,
    file: string,
    line: int,
    prefix: string,
    have: Value,
    want: Value)

  /** One argument of a `Printf`-style call. */
  datatype Arg =
    | StrArg(s: string)
    | IntArg(i: int)
    | TypeArg(t: Option<Type>)
    | ValueArg(v: Value)

  /** The argument list of the `Errorf`/`Fatalf` call: file, line, prefix,
      then the type and value of `have`, then the type and value of `want`. */
  function Args(m: Message): (args: seq<Arg>)
    ensures |args| == 7
    ensures args[0] == StrArg(m.file) && args[1] == IntArg(m.line) && args[2] == StrArg(m.prefix)
    ensures args[3] == TypeArg(TypeOf(m.have)) && args[4] == ValueArg(m.have)
    ensures args[5] == TypeArg(TypeOf(m.want)) && args[6] == ValueArg(m.want)
  {
    [StrArg(m.file), IntArg(m.line), StrArg(m.prefix),
     TypeArg(TypeOf(m.have)), ValueArg(m.have),
     TypeArg(TypeOf(m.want)), ValueArg(m.want)]
  }

  /** A report of two values of different dynamic types shows two different
      types, so a mismatch such as `42` against `int64(42)` is visible. */
  lemma ReportShowsBothTypes(m: Message)
    requires m.have.Typed? && m.want.Typed? && m.have.t != m.want.t
    ensures Args(m)[3] != Args(m)[5]
    ensures Args(m)[3] == TypeArg(Some(m.have.t)) && Args(m)[5] == TypeArg(Some(m.want.t))
  {
  }

  /** The verb letters of a format string, in order. A `+` flag is skipped
      and `%%` is a literal percent sign, not a verb. */
  function Verbs(s: string): (v: string)
  {
    if |s| < 2 then []
    else if s[0] != '%' then Verbs(s[1..])
    else if s[1] == '%' then Verbs(s[2..])
    else if s[1] == '+' && |s| >= 3 then [s[2]] + Verbs(s[3..])
    else [s[1]] + Verbs(s[2..])
  }

  /** Whether a verb can print an argument without a `%!` error. */
  predicate Accepts(verb: char, arg: Arg)
  {
    match verb
    case 's' => arg.StrArg?
    case 'd' => arg.IntArg?
    case 'T' => true
    case 'v' => true
    case _ => false
  }

  /** Where the verbs of a template stand. Both templates start with a line
      break and have two more, just before `HaveLine` and `WantLine`.
      The site line, `\n%s:%d: actual should ?= expected\n`, holds `%s` and
      `%d` at offsets 1 and 4. The `have` line, from `HaveLine`, holds `%s`,
      `%T` and `%+v` at offsets 0, 10 and 15 of it. The last line (`want`
      or `and`), from `WantLine`, holds `%T` and `%+v` at offsets 7 and 12. */
  const HaveLine: nat := 34
  const WantLine: nat := 53
  const TemplateLength: nat := 68

  /** No `%` between `i` (included) and `j` (excluded). */
  predicate NoPercent(s: string, i: nat, j: nat)
    requires i <= j <= |s|
  {
    forall k :: i <= k < j ==> s[k] != '%'
  }

  predicate SiteLineLaidOut(s: string)
    requires |s| == TemplateLength
  {
    s[0] == '\n' && s[HaveLine - 1] == '\n' && s[WantLine - 1] == '\n' &&
    NoPercent(s, 0, 1) && s[1] == '%' && s[2] == 's' &&
    NoPercent(s, 3, 4) && s[4] == '%' && s[5] == 'd' &&
    NoPercent(s, 6, HaveLine)
  }

  predicate ValueLinesLaidOut(s: string)
    requires |s| == TemplateLength
  {
    var h, w := HaveLine, WantLine;
    s[h] == '%' && s[h + 1] == 's' && NoPercent(s, h + 2, h + 10) &&
    s[h + 10] == '%' && s[h + 11] == 'T' && NoPercent(s, h + 12, h + 15) &&
    s[h + 15] == '%' && s[h + 16] == '+' && s[h + 17] == 'v' && NoPercent(s, h + 18, w + 7) &&
    s[w + 7] == '%' && s[w + 8] == 'T' && NoPercent(s, w + 9, w + 12) &&
    s[w + 12] == '%' && s[w + 13] == '+' && s[w + 14] == 'v'
  }

  /** Both templates have the layout above. */
  lemma TemplateLaidOut(t: Template)
    ensures |Format(t)| == TemplateLength
    ensures SiteLineLaidOut(Format(t)) && ValueLinesLaidOut(Format(t))
  {
    match t
    case Equal => EqualFormatLaidOut();
    case Unequal => UnequalFormatLaidOut();
  }

  lemma EqualFormatLaidOut()
    ensures |EqualFormat| == TemplateLength
    ensures SiteLineLaidOut(EqualFormat) && ValueLinesLaidOut(EqualFormat)
  {
  }

  lemma UnequalFormatLaidOut()
    ensures |UnequalFormat| == TemplateLength
    ensures SiteLineLaidOut(UnequalFormat) && ValueLinesLaidOut(UnequalFormat)
  {
  }

  lemma {:induction false} VerbsSkipText(s: string, i: nat, j: nat)
    requires i <= j <= |s| && NoPercent(s, i, j)
    ensures Verbs(s[i..]) == Verbs(s[j..])
    decreases j - i
  {
    if i < j {
      assert s[i..][1..] == s[i + 1..];
      VerbsSkipText(s, i + 1, j);
    }
  }

  lemma VerbAt(s: string, i: nat)
    requires i + 1 < |s| && s[i] == '%' && s[i + 1] != '%' && s[i + 1] != '+'
    ensures Verbs(s[i..]) == [s[i + 1]] + Verbs(s[i + 2..])
  {
    assert s[i..][2..] == s[i + 2..];
  }

  lemma PlusVerbAt(s: string, i: nat)
    requires i + 2 < |s| && s[i] == '%' && s[i + 1] == '+'
    ensures Verbs(s[i..]) == [s[i + 2]] + Verbs(s[i + 3..])
  {
    assert s[i..][3..] == s[i + 3..];
  }

  /** The verbs of the `have` and last lines: `%s`, then `%T`, `%+v`, `%T`,
      `%+v`. */
  lemma VerbsOfValueLines(s: string)
    requires |s| == TemplateLength && ValueLinesLaidOut(s)
    ensures Verbs(s[HaveLine..]) == "sTvTv"
  {
    var h, w := HaveLine, WantLine;
    PlusVerbAt(s, w + 12);
    assert Verbs(s[w + 12..]) == "v";
    VerbsSkipText(s, w + 9, w + 12);
    VerbAt(s, w + 7);
    assert Verbs(s[w + 7..]) == "Tv";
    VerbsSkipText(s, h + 18, w + 7);
    PlusVerbAt(s, h + 15);
    assert Verbs(s[h + 15..]) == "vTv";
    VerbsSkipText(s, h + 12, h + 15);
    VerbAt(s, h + 10);
    assert Verbs(s[h + 10..]) == "TvTv";
    VerbsSkipText(s, h + 2, h + 10);
    VerbAt(s, h);
  }

  /** The verbs of a whole string laid out like the templates. */
  lemma VerbsOfLayout(s: string)
    requires |s| == TemplateLength && SiteLineLaidOut(s)
    requires Verbs(s[HaveLine..]) == "sTvTv"
    ensures Verbs(s) == "sdsTvTv"
  {
    VerbsSkipText(s, 6, HaveLine);
    VerbAt(s, 4);
    assert Verbs(s[4..]) == "dsTvTv";
    VerbsSkipText(s, 3, 4);
    VerbAt(s, 1);
    assert Verbs(s[1..]) == "sdsTvTv";
    VerbsSkipText(s, 0, 1);
    assert s[0..] == s;
  }

  /** Both templates hold the same seven verbs, in the same order. */
  lemma TemplateVerbs(t: Template)
    ensures Verbs(Format(t)) == "sdsTvTv"
  {
    var s := Format(t);
    TemplateLaidOut(t);
    VerbsOfValueLines(s);
    VerbsOfLayout(s);
  }

  /** Every message fits its template: one argument per verb, and each
      argument of a kind its verb prints. */
  lemma ArgsFitTemplate(m: Message)
    ensures |Args(m)| == |Verbs(Format(m.template))|
    ensures forall i :: 0 <= i < |Args(m)| ==> Accepts(Verbs(Format(m.template))[i], Args(m)[i])
  {
    TemplateVerbs(m.template);
  }

  /** The two templates differ, so a report shows which polarity failed. */
  lemma TemplatesDiffer()
    ensures Format(Equal) != Format(Unequal)
  {
    assert Format(Equal)[22] != Format(Unequal)[22];
  }

  // Decimal rendering, as `%d` prints an int.

  function DigitChar(d: int): (c: char)
    requires 0 <= d < 10
    ensures '0' <= c <= '9'
  {
    ('0' as int + d) as char
  }

  /** Every character is a decimal digit (checked from the last one, the
      order in which `Digits` builds a string). */
  predicate IsDigits(s: string)
  {
    |s| == 0 || ('0' <= s[|s| - 1] <= '9' && IsDigits(s[..|s| - 1]))
  }

  /** The decimal digits of a natural number, most significant first,
      without leading zeros. */
  function Digits(n: nat): (s: string)
    ensures |s| >= 1 && IsDigits(s) && '0' <= s[0] <= '9'
    ensures |s| > 1 ==> s[0] != '0'
  {
    if n < 10 then
      var s := [DigitChar(n)];
      assert s[..0] == [];
      s
    else
      var s := Digits(n / 10) + [DigitChar(n % 10)];
      assert s[..|s| - 1] == Digits(n / 10);
      s
  }

  /** `%d` of an int: a minus sign exactly for negative numbers, then the
      digits of its magnitude, without leading zeros. */
  function Decimal(i: int): (s: string)
    ensures |s| >= 1 && (s[0] == '-' <==> i < 0)
    ensures var d := if i < 0 then s[1..] else s;
            |d| >= 1 && IsDigits(d) && (|d| > 1 ==> d[0] != '0')
  {
    if i < 0 then
      var n: nat := -i;
      var s := "-" + Digits(n);
      assert s[1..] == Digits(n);
      s
    else Digits(i)
  }

  /** The value of a string of decimal digits. */
  function DigitsValue(s: string): (v: nat)
    requires IsDigits(s)
  {
    if |s| == 0 then 0
    else DigitsValue(s[..|s| - 1]) * 10 + (s[|s| - 1] as int - '0' as int)
  }

  /** Reads back what `Decimal` writes; `None` for anything else that is not
      an optional minus sign followed by digits. */
  function ParseDecimal(s: string): (r: Option<int>)
  {
    if |s| >= 1 && s[0] == '-' then
      match ParseDigits(s[1..])
      case Some(v) => Some(0 - v)
      case None => None
    else
      match ParseDigits(s)
      case Some(v) => Some(v)
      case None => None
  }

  /** Reads back a non-empty string of digits. */
  function ParseDigits(s: string): (r: Option<nat>)
  {
    if |s| >= 1 && IsDigits(s) then Some(DigitsValue(s)) else None
  }

  lemma {:induction false} DigitsRoundTrip(n: nat)
    ensures DigitsValue(Digits(n)) == n
  {
    if n >= 10 {
      var s := Digits(n);
      assert s[..|s| - 1] == Digits(n / 10);
      DigitsRoundTrip(n / 10);
    }
  }

  lemma ParseUnsigned(d: string)
    requires |d| >= 1 && IsDigits(d) && '0' <= d[0] <= '9'
    ensures ParseDecimal(d) == Some(DigitsValue(d))
  {
    assert ParseDigits(d) == Some(DigitsValue(d));
  }

  lemma ParseNegative(d: string)
    requires |d| >= 1 && IsDigits(d)
    ensures ParseDecimal("-" + d) == Some(0 - DigitsValue(d))
  {
    assert ("-" + d)[1..] == d;
    assert ParseDigits(d) == Some(DigitsValue(d));
  }

  /** Reading back a rendered number gives the number. */
  lemma DecimalRoundTrip(i: int)
    ensures ParseDecimal(Decimal(i)) == Some(i)
  {
    if i < 0 {
      var n: nat := -i;
      var d := Digits(n);
      DigitsRoundTrip(n);
      ParseNegative(d);
      assert Decimal(i) == "-" + d;
    } else {
      var d := Digits(i);
      DigitsRoundTrip(i);
      ParseUnsigned(d);
      assert Decimal(i) == d;
    }
  }

  /** Distinct numbers render differently. */
  lemma DecimalInjective(i: int, j: int)
    requires Decimal(i) == Decimal(j)
    ensures i == j
  {
    DecimalRoundTrip(i);
    DecimalRoundTrip(j);
  }

  /** `exampleNum`: the prefix for an optional loop index. One index `n`
      gives the decimal of `n` itself followed by a dot; no index, or more
      than one, gives no prefix. */
  function ExampleNum(n: seq<int>): (r: string)
    ensures |n| != 1 ==> r == ""
    ensures |n| == 1 ==> r == Decimal(n[0]) + "."
    ensures |n| == 1 ==> |r| >= 2 && r[|r| - 1] == '.'
    ensures |n| == 1 ==> ParseDecimal(r[..|r| - 1]) == Some(n[0])
  {
    if |n| == 1 then
      DecimalRoundTrip(n[0]);
      var r := Decimal(n[0]) + ".";
      assert r[..|r| - 1] == Decimal(n[0]);
      r
    else ""
  }

  /** The prefix is zero-based: the index is printed as given, never as its
      one-based ordinal. */
  lemma ExampleNumIsZeroBased(k: int)
    ensures ExampleNum([k]) == Decimal(k) + "."
    ensures ExampleNum([k]) != Decimal(k + 1) + "."
  {
    var r, q := Decimal(k) + ".", Decimal(k + 1) + ".";
    if r == q {
      assert r[..|r| - 1] == Decimal(k) && q[..|q| - 1] == Decimal(k + 1);
      DecimalInjective(k, k + 1);
    }
  }

  /** What the table test of `exampleNum` expects ("1.", "2.", "3." for the
      indices 0, 1, 2) is not what the function gives ("0.", "1.", "2."). */
  lemma ExampleNumTableExpectations()
    ensures ExampleNum([]) == ""
    ensures ExampleNum([0]) == "0." && ExampleNum([0]) != "1."
    ensures ExampleNum([1]) == "1." && ExampleNum([1]) != "2."
    ensures ExampleNum([2]) == "2." && ExampleNum([2]) != "3."
  {
    ExampleNumIsZeroBased(0);
    ExampleNumIsZeroBased(1);
    ExampleNumIsZeroBased(2);
  }
}
