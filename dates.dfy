/**
  parse_date: datetime.strptime tried with five formats in a fixed order, the first success
  rewritten as YYYY-MM-DD. strptime is modelled for the directives these formats use: each
  directive is the alternation CPython's _strptime compiles for it (%m `1[0-2]|0[1-9]|[1-9]`,
  %d `3[01]|[12]\d|0[1-9]|[1-9]| [1-9]`, %Y four digits, %y two digits), tried in order with
  backtracking; the match must then cover the whole string, and the fields must form a real date.
*/
module Dates {
  import opened Wrappers
  import opened Text
  import opened Amounts

  datatype Directive = Month | Day | Year4 | Year2 | Literal(c: char)

  /** One alternative of a directive's regular expression: one character range per character. */
  type Alternative = seq<(char, char)>

  function Alternatives(d: Directive): seq<Alternative>
  {
    match d
      case Month => [[('1', '1'), ('0', '2')], [('0', '0'), ('1', '9')], [('1', '9')]]
      case Day => [[('3', '3'), ('0', '1')], [('1', '2'), ('0', '9')], [('0', '0'), ('1', '9')], [('1', '9')], [(' ', ' '), ('1', '9')]]
      case Year4 => [[('0', '9'), ('0', '9'), ('0', '9'), ('0', '9')]]
      case Year2 => [[('0', '9'), ('0', '9')]]
      case Literal(c) => [[(c, c)]]
  }

  /** "%m/%d/%Y", "%Y-%m-%d", "%m/%d/%y", "%d/%m/%Y", "%Y/%m/%d" */
  const MonthFirst: seq<Directive> := [Month, Literal('/'), Day, Literal('/'), Year4]
  const IsoFormat: seq<Directive> := [Year4, Literal('-'), Month, Literal('-'), Day]
  const MonthFirstShort: seq<Directive> := [Month, Literal('/'), Day, Literal('/'), Year2]
  const DayFirst: seq<Directive> := [Day, Literal('/'), Month, Literal('/'), Year4]
  const YearFirst: seq<Directive> := [Year4, Literal('/'), Month, Literal('/'), Day]

  /** The formats parse_date tries, in order. */
  const DateFormats: seq<seq<Directive>> := [MonthFirst, IsoFormat, MonthFirstShort, DayFirst, YearFirst]

  /** The text of s at pos fits the alternative. */
  predicate AltMatches(alt: Alternative, s: string, pos: nat)
  {
    pos + |alt| <= |s| && forall k | 0 <= k < |alt| :: alt[k].0 <= s[pos + k] <= alt[k].1
  }

  /** A successful match: the text each directive consumed, and where the match ended. */
  datatype Captured = Captured(texts: seq<string>, end: nat)

  /** re.match of the compiled format at pos: the first combination of alternatives, in order,
      that lets the rest of the format match too. */
  function MatchFrom(fmt: seq<Directive>, s: string, pos: nat): (r: Option<Captured>)
    requires pos <= |s|
    ensures r.Some? ==> |r.value.texts| == |fmt| && pos <= r.value.end <= |s|
    decreases |fmt|, 1, 0
  {
    if fmt == [] then Some(Captured([], pos)) else TryAlternatives(fmt, Alternatives(fmt[0]), s, pos)
  }

  function TryAlternatives(fmt: seq<Directive>, alts: seq<Alternative>, s: string, pos: nat): (r: Option<Captured>)
    requires fmt != [] && pos <= |s|
    ensures r.Some? ==> |r.value.texts| == |fmt| && pos <= r.value.end <= |s|
    decreases |fmt|, 0, |alts|
  {
    if alts == [] then None
    else if AltMatches(alts[0], s, pos) then
      match MatchFrom(fmt[1..], s, pos + |alts[0]|)
        case Some(rest) => Some(Captured([s[pos..pos + |alts[0]|]] + rest.texts, rest.end))
        case None => TryAlternatives(fmt, alts[1..], s, pos)
    else TryAlternatives(fmt, alts[1..], s, pos)
  }

  datatype Date = Date(year: int, month: int, day: int)

  predicate IsLeap(year: int)
  {
    year % 4 == 0 && (year % 100 != 0 || year % 400 == 0)
  }

  function DaysInMonth(year: int, month: int): int
  {
    if month == 2 then (if IsLeap(year) then 29 else 28)
    else if month == 4 || month == 6 || month == 9 || month == 11 then 30
    else 31
  }

  /** A date datetime accepts: years 1 to 9999 and a day that exists in its month. */
  predicate ValidDate(d: Date)
  {
    1 <= d.year <= 9999 && 1 <= d.month <= 12 && 1 <= d.day <= DaysInMonth(d.year, d.month)
  }

  /** The field values of the consumed texts; a field the format lacks keeps strptime's default
      (1900-01-01). %y maps 69-99 to 1969-1999 and 00-68 to 2000-2068. */
  function Fields(fmt: seq<Directive>, texts: seq<string>): Date
    requires |texts| == |fmt|
  {
    if fmt == [] then Date(1900, 1, 1)
    else
      var rest := Fields(fmt[1..], texts[1..]);
      var v := DigitsValue(texts[0]) as int;
      match fmt[0]
        case Month => rest.(month := v)
        case Day => rest.(day := v)
        case Year4 => rest.(year := v)
        case Year2 => rest.(year := if v <= 68 then 2000 + v else 1900 + v)
        case Literal(_) => rest
  }

  /** datetime.strptime(s, fmt): None where it raises ValueError (no match, unconverted data
      remains, or no such date). */
  function StrpTime(s: string, fmt: seq<Directive>): (r: Option<Date>)
    ensures r.Some? ==> ValidDate(r.value)
  {
    match MatchFrom(fmt, s, 0)
      case None => None
      case Some(c) =>
        if c.end != |s| then None
        else
          var d := Fields(fmt, c.texts);
          if ValidDate(d) then Some(d) else None
  }

  function Digit(n: int): char
    requires 0 <= n < 10
  {
    ('0' as int + n) as char
  }

  /** dt.strftime("%Y-%m-%d"), with the year written in four digits. */
  function IsoText(d: Date): string
    requires ValidDate(d)
  {
    [Digit(d.year / 1000), Digit(d.year / 100 % 10), Digit(d.year / 10 % 10), Digit(d.year % 10), '-',
     Digit(d.month / 10), Digit(d.month % 10), '-', Digit(d.day / 10), Digit(d.day % 10)]
  }

  /** The loop of parse_date as a value: the first format that parses decides. */
  function FirstParsed(formats: seq<seq<Directive>>, s: string): Result<string>
  {
    if formats == [] then Err("Unable to parse date: " + s)
    else match StrpTime(s, formats[0])
      case Some(d) => Ok(IsoText(d))
      case None => FirstParsed(formats[1..], s)
  }

  function ParsedDate(s: string): Result<string>
  {
    FirstParsed(DateFormats, s)
  }

  /** parse_date: tries each format in turn and returns the first success. */
  method ParseDate(s: string) returns (r: Result<string>)
    ensures r == ParsedDate(s)
  {
    for i := 0 to |DateFormats|
      invariant FirstParsed(DateFormats[i..], s) == ParsedDate(s)
    {
      var parsed := StrpTime(s, DateFormats[i]);
      if parsed.Some? {
        return Ok(IsoText(parsed.value));
      }
      assert DateFormats[i..][1..] == DateFormats[i + 1..];
    }
    return Err("Unable to parse date: " + s);
  }

  // ---------------------------------------------------------------------------
  // The order of the formats

  /** A parse comes from the first format that parses, and every earlier format fails. */
  lemma {:induction false} FirstParsedOk(formats: seq<seq<Directive>>, s: string) returns (k: int, d: Date)
    requires FirstParsed(formats, s).Ok?
    ensures 0 <= k < |formats| && StrpTime(s, formats[k]) == Some(d)
    ensures FirstParsed(formats, s) == Ok(IsoText(d))
    ensures forall j :: 0 <= j < k ==> StrpTime(s, formats[j]).None?
  {
    match StrpTime(s, formats[0])
    case Some(first) =>
      k, d := 0, first;
    case None =>
      var k', d' := FirstParsedOk(formats[1..], s);
      k, d := k' + 1, d';
      forall j | 0 <= j < k ensures StrpTime(s, formats[j]).None? {
        if j > 0 { assert formats[j] == formats[1..][j - 1]; }
      }
  }

  /** The error is raised exactly when no format parses. */
  lemma {:induction false} FirstParsedErr(formats: seq<seq<Directive>>, s: string)
    ensures FirstParsed(formats, s).Err? <==> forall k :: 0 <= k < |formats| ==> StrpTime(s, formats[k]).None?
  {
    if formats != [] && StrpTime(s, formats[0]).None? {
      FirstParsedErr(formats[1..], s);
      assert forall k :: 1 <= k < |formats| ==> formats[k] == formats[1..][k - 1];
    }
  }

  /** A format that fails passes the decision on to the formats after it. */
  lemma FirstParsedSkip(formats: seq<seq<Directive>>, s: string, i: int)
    requires 0 <= i < |formats| && StrpTime(s, formats[i]).None?
    ensures FirstParsed(formats[i..], s) == FirstParsed(formats[i + 1..], s)
  {
    assert formats[i..][0] == formats[i];
    assert formats[i..][1..] == formats[i + 1..];
  }

  // ---------------------------------------------------------------------------
  // The shape of the output

  /** Ten characters: four digits, a dash, two digits, a dash, two digits. */
  predicate IsoShaped(t: string)
  {
    && |t| == 10 && t[4] == '-' && t[7] == '-'
    && forall i :: 0 <= i < 10 && i != 4 && i != 7 ==> IsDigit(t[i])
  }

  /** The text of a date is ISO shaped and reads back as that date. */
  lemma IsoTextFields(d: Date)
    requires ValidDate(d)
    ensures IsoShaped(IsoText(d))
    ensures DigitsValue(IsoText(d)[..4]) == d.year
    ensures DigitsValue(IsoText(d)[5..7]) == d.month
    ensures DigitsValue(IsoText(d)[8..]) == d.day
  {
    var t := IsoText(d);
    var y3, y2, y1, y0 := d.year / 1000, d.year / 100 % 10, d.year / 10 % 10, d.year % 10;
    FourDigitSplit(d.year);
    TwoDigitSplit(d.month);
    TwoDigitSplit(d.day);
    DigitOf(y3); DigitOf(y2); DigitOf(y1); DigitOf(y0);
    DigitOf(d.month / 10); DigitOf(d.month % 10); DigitOf(d.day / 10); DigitOf(d.day % 10);
    assert t[..4] == [Digit(y3), Digit(y2), Digit(y1), Digit(y0)];
    assert t[5..7] == [Digit(d.month / 10), Digit(d.month % 10)];
    assert t[8..] == [Digit(d.day / 10), Digit(d.day % 10)];
    FourDigitsValue(Digit(y3), Digit(y2), Digit(y1), Digit(y0));
    TwoDigitsValue(Digit(d.month / 10), Digit(d.month % 10));
    TwoDigitsValue(Digit(d.day / 10), Digit(d.day % 10));
  }

  lemma DigitOf(n: int)
    requires 0 <= n < 10
    ensures IsDigit(Digit(n)) && DigitValue(Digit(n)) == n
  {
  }

  lemma TwoDigitSplit(n: int)
    requires 0 <= n < 100
    ensures 0 <= n / 10 < 10 && 0 <= n % 10 < 10 && n == 10 * (n / 10) + n % 10
  {
  }

  lemma FourDigitSplit(n: int)
    requires 0 <= n < 10000
    ensures 0 <= n / 1000 < 10 && 0 <= n / 100 % 10 < 10 && 0 <= n / 10 % 10 < 10 && 0 <= n % 10 < 10
    ensures n == 1000 * (n / 1000) + 100 * (n / 100 % 10) + 10 * (n / 10 % 10) + n % 10
  {
    var q := n / 10;
    assert n == 10 * q + n % 10;
    assert q / 10 == n / 100;
    assert q / 100 == n / 1000;
    assert q == 100 * (q / 100) + 10 * (q / 10 % 10) + q % 10;
  }

  lemma TwoDigitsValue(a: char, b: char)
    ensures DigitsValue([a, b]) == 10 * DigitValue(a) + DigitValue(b)
  {
    assert [a, b][..1] == [a];
    assert [a][..0] == [];
    assert DigitsValue([a]) == DigitValue(a);
  }

  lemma FourDigitsValue(a: char, b: char, c: char, e: char)
    ensures DigitsValue([a, b, c, e]) == 1000 * DigitValue(a) + 100 * DigitValue(b) + 10 * DigitValue(c) + DigitValue(e)
  {
    assert [a, b, c, e][..3] == [a, b, c];
    assert [a, b, c][..2] == [a, b];
    TwoDigitsValue(a, b);
  }

  /** parse_date either raises or returns an ISO shaped text of a date that exists; the text is
      one of the formats applied to the input. */
  lemma ParsedDateValid(s: string) returns (k: int, d: Date)
    requires ParsedDate(s).Ok?
    ensures 0 <= k < |DateFormats| && StrpTime(s, DateFormats[k]) == Some(d) && ValidDate(d)
    ensures ParsedDate(s) == Ok(IsoText(d)) && IsoShaped(IsoText(d))
    ensures forall j :: 0 <= j < k ==> StrpTime(s, DateFormats[j]).None?
  {
    k, d := FirstParsedOk(DateFormats, s);
    IsoTextFields(d);
  }

  // ---------------------------------------------------------------------------
  // Steps of the matcher

  /** Two characters at pos that spell n in two digits. */
  predicate TwoDigitsAt(s: string, pos: nat, n: int)
  {
    0 <= n < 100 && pos + 2 <= |s| && s[pos] == Digit(n / 10) && s[pos + 1] == Digit(n % 10)
  }

  lemma SkipAlternative(fmt: seq<Directive>, alts: seq<Alternative>, s: string, pos: nat)
    requires fmt != [] && pos <= |s| && alts != [] && !AltMatches(alts[0], s, pos)
    ensures TryAlternatives(fmt, alts, s, pos) == TryAlternatives(fmt, alts[1..], s, pos)
  {
  }

  lemma TakeAlternative(fmt: seq<Directive>, alts: seq<Alternative>, s: string, pos: nat, rest: Captured)
    requires fmt != [] && pos <= |s| && alts != [] && AltMatches(alts[0], s, pos)
    requires pos + |alts[0]| <= |s| && MatchFrom(fmt[1..], s, pos + |alts[0]|) == Some(rest)
    ensures TryAlternatives(fmt, alts, s, pos) == Some(Captured([s[pos..pos + |alts[0]|]] + rest.texts, rest.end))
  {
  }

  /** An alternative whose k-th character range excludes the character at pos + k does not match. */
  lemma CharFails(alt: Alternative, s: string, pos: nat, k: nat)
    requires k < |alt| && (pos + k < |s| ==> !(alt[k].0 <= s[pos + k] <= alt[k].1))
    ensures !AltMatches(alt, s, pos)
  {
  }

  lemma TwoCharsMatch(alt: Alternative, s: string, pos: nat)
    requires |alt| == 2 && pos + 2 <= |s|
    requires alt[0].0 <= s[pos] <= alt[0].1 && alt[1].0 <= s[pos + 1] <= alt[1].1
    ensures AltMatches(alt, s, pos)
  {
    forall k | 0 <= k < 2 ensures alt[k].0 <= s[pos + k] <= alt[k].1 {
      if k == 1 { assert pos + k == pos + 1; }
    }
  }

  /** A literal fails on any other character. */
  lemma LiteralMismatch(fmt: seq<Directive>, s: string, pos: nat)
    requires fmt != [] && fmt[0].Literal? && pos <= |s| && (pos < |s| ==> s[pos] != fmt[0].c)
    ensures MatchFrom(fmt, s, pos) == None
  {
    var alts := Alternatives(fmt[0]);
    CharFails(alts[0], s, pos, 0);
    SkipAlternative(fmt, alts, s, pos);
    assert alts[1..] == [];
  }

  /** A literal consumes its own character. */
  lemma LiteralMatch(fmt: seq<Directive>, s: string, pos: nat, rest: Captured)
    requires fmt != [] && fmt[0].Literal? && pos < |s| && s[pos] == fmt[0].c
    requires MatchFrom(fmt[1..], s, pos + 1) == Some(rest)
    ensures MatchFrom(fmt, s, pos) == Some(Captured([s[pos..pos + 1]] + rest.texts, rest.end))
  {
    var alts := Alternatives(fmt[0]);
    assert AltMatches(alts[0], s, pos) by {
      assert alts[0][0] == (s[pos], s[pos]);
    }
    TakeAlternative(fmt, alts, s, pos, rest);
  }

  /** %Y consumes four digits, whatever follows. */
  lemma YearStep(fmt: seq<Directive>, s: string, pos: nat, rest: Captured)
    requires fmt != [] && fmt[0] == Year4 && pos + 4 <= |s|
    requires forall i :: pos <= i < pos + 4 ==> IsDigit(s[i])
    requires MatchFrom(fmt[1..], s, pos + 4) == Some(rest)
    ensures MatchFrom(fmt, s, pos) == Some(Captured([s[pos..pos + 4]] + rest.texts, rest.end))
  {
    var alts := Alternatives(Year4);
    assert AltMatches(alts[0], s, pos) by {
      forall k | 0 <= k < 4 ensures alts[0][k].0 <= s[pos + k] <= alts[0][k].1 {
        assert IsDigit(s[pos + k]);
      }
    }
    TakeAlternative(fmt, alts, s, pos, rest);
  }

  /** %m on a two-digit month: 10 to 12 by the first alternative, 01 to 09 by the second. */
  lemma MonthStep(fmt: seq<Directive>, s: string, pos: nat, m: int, rest: Captured)
    requires fmt != [] && fmt[0] == Month && 1 <= m <= 12 && TwoDigitsAt(s, pos, m)
    requires MatchFrom(fmt[1..], s, pos + 2) == Some(rest)
    ensures MatchFrom(fmt, s, pos) == Some(Captured([s[pos..pos + 2]] + rest.texts, rest.end))
  {
    var alts := Alternatives(Month);
    if m >= 10 {
      TwoCharsMatch(alts[0], s, pos);
      TakeAlternative(fmt, alts, s, pos, rest);
    } else {
      CharFails(alts[0], s, pos, 0);
      SkipAlternative(fmt, alts, s, pos);
      TwoCharsMatch(alts[1..][0], s, pos);
      TakeAlternative(fmt, alts[1..], s, pos, rest);
    }
  }

  /** %d on a two-digit day: 30 and 31, then 10 to 29, then 01 to 09. */
  lemma DayStep(fmt: seq<Directive>, s: string, pos: nat, d: int, rest: Captured)
    requires fmt != [] && fmt[0] == Day && 1 <= d <= 31 && TwoDigitsAt(s, pos, d)
    requires MatchFrom(fmt[1..], s, pos + 2) == Some(rest)
    ensures MatchFrom(fmt, s, pos) == Some(Captured([s[pos..pos + 2]] + rest.texts, rest.end))
  {
    var alts := Alternatives(Day);
    if d >= 30 {
      TwoCharsMatch(alts[0], s, pos);
      TakeAlternative(fmt, alts, s, pos, rest);
    } else {
      CharFails(alts[0], s, pos, 0);
      SkipAlternative(fmt, alts, s, pos);
      DayStepBelowThirty(fmt, s, pos, d, rest);
    }
  }

  /** Past the 30-31 alternative: 10 to 29, then 01 to 09. */
  lemma DayStepBelowThirty(fmt: seq<Directive>, s: string, pos: nat, d: int, rest: Captured)
    requires fmt != [] && fmt[0] == Day && 1 <= d < 30 && TwoDigitsAt(s, pos, d)
    requires MatchFrom(fmt[1..], s, pos + 2) == Some(rest)
    ensures TryAlternatives(fmt, Alternatives(Day)[1..], s, pos) == Some(Captured([s[pos..pos + 2]] + rest.texts, rest.end))
  {
    var alts := Alternatives(Day)[1..];
    if d >= 10 {
      TwoCharsMatch(alts[0], s, pos);
      TakeAlternative(fmt, alts, s, pos, rest);
    } else {
      CharFails(alts[0], s, pos, 0);
      SkipAlternative(fmt, alts, s, pos);
      assert alts[1..] == Alternatives(Day)[2..];
      TwoCharsMatch(alts[1..][0], s, pos);
      TakeAlternative(fmt, alts[1..], s, pos, rest);
    }
  }

  /** A format that opens with %m and a slash fails on text whose second and third characters
      are digits: every alternative of %m leaves a digit where the slash should be. */
  lemma MonthSlashRejects(fmt: seq<Directive>, s: string)
    requires |fmt| >= 2 && fmt[0] == Month && fmt[1] == Literal('/')
    requires |s| >= 3 && IsDigit(s[1]) && IsDigit(s[2])
    ensures MatchFrom(fmt, s, 0) == None
  {
    var alts := Alternatives(Month);
    LiteralMismatch(fmt[1..], s, 2);
    LiteralMismatch(fmt[1..], s, 1);
    assert TryAlternatives(fmt, alts[1..][1..], s, 0) == None by {
      assert alts[1..][1..][1..] == [];
    }
    assert TryAlternatives(fmt, alts[1..], s, 0) == None;
  }

  // ---------------------------------------------------------------------------
  // Round trip

  /** The ISO format matches the whole text of a date and recovers its fields. */
  lemma IsoFormatMatches(d: Date)
    requires ValidDate(d)
    ensures MatchFrom(IsoFormat, IsoText(d), 0).Some?
    ensures MatchFrom(IsoFormat, IsoText(d), 0).value.end == |IsoText(d)|
    ensures Fields(IsoFormat, MatchFrom(IsoFormat, IsoText(d), 0).value.texts) == d
  {
    var t := IsoText(d);
    IsoTextFields(d);
    TwoDigitSplit(d.month);
    TwoDigitSplit(d.day);
    assert TwoDigitsAt(t, 5, d.month) && TwoDigitsAt(t, 8, d.day);
    IsoMatch(t, d.month, d.day);
    var texts := [t[0..4], t[4..5], t[5..7], t[7..8], t[8..10]];
    IsoFields(texts);
    assert t[0..4] == t[..4] && t[8..10] == t[8..];
  }

  /** %Y-%m-%d matches an ISO shaped text with a valid month and day field. */
  lemma IsoMatch(s: string, m: int, d: int)
    requires IsoShaped(s) && 1 <= m <= 12 && TwoDigitsAt(s, 5, m) && 1 <= d <= 31 && TwoDigitsAt(s, 8, d)
    ensures MatchFrom(IsoFormat, s, 0) == Some(Captured([s[0..4], s[4..5], s[5..7], s[7..8], s[8..10]], 10))
  {
    var f1: seq<Directive> := [Literal('-'), Month, Literal('-'), Day];
    IsoTail(s, m, d);
    var c2 := Captured([s[5..7], s[7..8], s[8..10]], 10);
    assert f1[1..] == [Month, Literal('-'), Day];
    LiteralMatch(f1, s, 4, c2);
    var c1 := Captured([s[4..5]] + c2.texts, 10);
    assert IsoFormat == [Year4] + f1;
    YearStep(IsoFormat, s, 0, c1);
    assert [s[0..4]] + c1.texts == [s[0..4], s[4..5], s[5..7], s[7..8], s[8..10]];
  }

  lemma IsoTail(s: string, m: int, d: int)
    requires |s| == 10 && 1 <= m <= 12 && TwoDigitsAt(s, 5, m) && s[7] == '-' && 1 <= d <= 31 && TwoDigitsAt(s, 8, d)
    ensures MatchFrom([Month, Literal('-'), Day], s, 5) == Some(Captured([s[5..7], s[7..8], s[8..10]], 10))
  {
    var f4: seq<Directive> := [Day];
    var f3: seq<Directive> := [Literal('-')] + f4;
    var f2: seq<Directive> := [Month] + f3;
    var c5 := Captured([], 10);
    assert MatchFrom(f4[1..], s, 10) == Some(c5);
    DayStep(f4, s, 8, d, c5);
    var c4 := Captured([s[8..10]] + c5.texts, 10);
    assert f3[1..] == f4;
    LiteralMatch(f3, s, 7, c4);
    var c3 := Captured([s[7..8]] + c4.texts, 10);
    assert f2[1..] == f3;
    MonthStep(f2, s, 5, m, c3);
    assert f2 == [Month, Literal('-'), Day];
    assert [s[5..7]] + c3.texts == [s[5..7], s[7..8], s[8..10]];
  }

  /** The field values %Y-%m-%d reads. */
  lemma IsoFields(texts: seq<string>)
    requires |texts| == 5
    ensures Fields(IsoFormat, texts) == Date(DigitsValue(texts[0]), DigitsValue(texts[2]), DigitsValue(texts[4]))
  {
    var t1, t2, t3, t4 := texts[1..], texts[2..], texts[3..], texts[4..];
    assert t1[1..] == t2 && t2[1..] == t3 && t3[1..] == t4 && t4[1..] == [];
    var day := Date(1900, 1, DigitsValue(texts[4]));
    assert Fields([Day], t4) == day;
    assert Fields([Literal('-'), Day], t3) == day;
    assert Fields([Month, Literal('-'), Day], t2) == day.(month := DigitsValue(texts[2]));
    assert Fields([Literal('-'), Month, Literal('-'), Day], t1) == day.(month := DigitsValue(texts[2]));
  }

  /** A normalized date is a fixed point: parse_date reads its own output back unchanged,
      through the second format, since the first cannot match a four-digit year. */
  lemma ParsedDateOfIso(d: Date)
    requires ValidDate(d)
    ensures ParsedDate(IsoText(d)) == Ok(IsoText(d))
  {
    var t := IsoText(d);
    IsoTextFields(d);
    MonthSlashRejects(MonthFirst, t);
    IsoFormatMatches(d);
    assert StrpTime(t, MonthFirst) == None;
    assert StrpTime(t, IsoFormat) == Some(d);
    assert DateFormats[1..][0] == IsoFormat;
    assert FirstParsed(DateFormats[1..], t) == Ok(t);
  }

  // ---------------------------------------------------------------------------
  // Which format wins

  /** The field after the first slash, the second slash and the year. */
  lemma SlashedTail(b: Directive, s: string, y: int)
    requires (b == Month && 1 <= y <= 12) || (b == Day && 1 <= y <= 31)
    requires |s| == 10 && TwoDigitsAt(s, 3, y) && s[5] == '/'
    requires forall i :: 6 <= i < 10 ==> IsDigit(s[i])
    ensures MatchFrom([b, Literal('/'), Year4], s, 3) == Some(Captured([s[3..5], s[5..6], s[6..10]], 10))
  {
    var f4: seq<Directive> := [Year4];
    var f3: seq<Directive> := [Literal('/')] + f4;
    var f2: seq<Directive> := [b] + f3;
    var c5 := Captured([], 10);
    assert MatchFrom(f4[1..], s, 10) == Some(c5);
    YearStep(f4, s, 6, c5);
    var c4 := Captured([s[6..10]] + c5.texts, 10);
    assert f3[1..] == f4;
    LiteralMatch(f3, s, 5, c4);
    var c3 := Captured([s[5..6]] + c4.texts, 10);
    assert f2[1..] == f3;
    FieldStep(b, f2, s, 3, y, c3);
    assert f2 == [b, Literal('/'), Year4];
    assert [s[3..5]] + c3.texts == [s[3..5], s[5..6], s[6..10]];
  }

  /** A two-digit month or day field followed by a match of the rest of the format. */
  lemma FieldStep(a: Directive, fmt: seq<Directive>, s: string, pos: nat, x: int, rest: Captured)
    requires (a == Month && 1 <= x <= 12) || (a == Day && 1 <= x <= 31)
    requires fmt != [] && fmt[0] == a && TwoDigitsAt(s, pos, x)
    requires MatchFrom(fmt[1..], s, pos + 2) == Some(rest)
    ensures MatchFrom(fmt, s, pos) == Some(Captured([s[pos..pos + 2]] + rest.texts, rest.end))
  {
    if a == Month { MonthStep(fmt, s, pos, x, rest); } else { DayStep(fmt, s, pos, x, rest); }
  }

  /** Two two-digit fields and a four-digit year, separated by slashes: the shape the
      slashed four-digit-year formats share. */
  lemma SlashedMatch(a: Directive, b: Directive, s: string, x: int, y: int)
    requires (a == Month && 1 <= x <= 12) || (a == Day && 1 <= x <= 31)
    requires (b == Month && 1 <= y <= 12) || (b == Day && 1 <= y <= 31)
    requires |s| == 10 && TwoDigitsAt(s, 0, x) && s[2] == '/' && TwoDigitsAt(s, 3, y) && s[5] == '/'
    requires forall i :: 6 <= i < 10 ==> IsDigit(s[i])
    ensures MatchFrom([a, Literal('/'), b, Literal('/'), Year4], s, 0)
         == Some(Captured([s[0..2], s[2..3], s[3..5], s[5..6], s[6..10]], 10))
  {
    var f2: seq<Directive> := [b, Literal('/'), Year4];
    var f1: seq<Directive> := [Literal('/')] + f2;
    var f0: seq<Directive> := [a] + f1;
    SlashedTail(b, s, y);
    var c2 := Captured([s[3..5], s[5..6], s[6..10]], 10);
    assert f1[1..] == f2;
    LiteralMatch(f1, s, 2, c2);
    var c1 := Captured([s[2..3]] + c2.texts, 10);
    assert f0[1..] == f1;
    FieldStep(a, f0, s, 0, x, c1);
    assert f0 == [a, Literal('/'), b, Literal('/'), Year4];
    assert [s[0..2]] + c1.texts == [s[0..2], s[2..3], s[3..5], s[5..6], s[6..10]];
  }

  /** The value of two digits written by TwoDigitsAt. */
  lemma TwoDigitsAtValue(s: string, pos: nat, n: int)
    requires TwoDigitsAt(s, pos, n)
    ensures DigitsValue(s[pos..pos + 2]) == n
  {
    TwoDigitSplit(n);
    DigitOf(n / 10);
    DigitOf(n % 10);
    assert s[pos..pos + 2] == [s[pos], s[pos + 1]];
    TwoDigitsValue(s[pos], s[pos + 1]);
  }

  /** %m/%d/%Y reads a slashed date with two-digit month and day. */
  lemma MonthFirstSlashed(s: string, m: int, d: int)
    requires 1 <= m <= 12 && 1 <= d <= 31
    requires |s| == 10 && TwoDigitsAt(s, 0, m) && s[2] == '/' && TwoDigitsAt(s, 3, d) && s[5] == '/'
    requires forall i :: 6 <= i < 10 ==> IsDigit(s[i])
    requires ValidDate(Date(DigitsValue(s[6..10]), m, d))
    ensures StrpTime(s, MonthFirst) == Some(Date(DigitsValue(s[6..10]), m, d))
  {
    SlashedMatch(Month, Day, s, m, d);
    var texts := [s[0..2], s[2..3], s[3..5], s[5..6], s[6..10]];
    SlashedFields(texts);
    TwoDigitsAtValue(s, 0, m);
    TwoDigitsAtValue(s, 3, d);
    var date := Date(DigitsValue(s[6..10]), m, d);
    assert Fields(MonthFirst, texts) == date;
    StrpTimeOf(s, MonthFirst, texts, date);
  }

  /** %d/%m/%Y reads a slashed date with two-digit day and month. */
  lemma DayFirstSlashed(s: string, d: int, m: int)
    requires 1 <= m <= 12 && 1 <= d <= 31
    requires |s| == 10 && TwoDigitsAt(s, 0, d) && s[2] == '/' && TwoDigitsAt(s, 3, m) && s[5] == '/'
    requires forall i :: 6 <= i < 10 ==> IsDigit(s[i])
    requires ValidDate(Date(DigitsValue(s[6..10]), m, d))
    ensures StrpTime(s, DayFirst) == Some(Date(DigitsValue(s[6..10]), m, d))
  {
    SlashedMatch(Day, Month, s, d, m);
    var texts := [s[0..2], s[2..3], s[3..5], s[5..6], s[6..10]];
    SlashedFields(texts);
    TwoDigitsAtValue(s, 0, d);
    TwoDigitsAtValue(s, 3, m);
    var date := Date(DigitsValue(s[6..10]), m, d);
    assert Fields(DayFirst, texts) == date;
    StrpTimeOf(s, DayFirst, texts, date);
  }

  /** A format that matches the whole text and reads a valid date yields that date. */
  lemma StrpTimeOf(s: string, fmt: seq<Directive>, texts: seq<string>, d: Date)
    requires MatchFrom(fmt, s, 0) == Some(Captured(texts, |s|)) && Fields(fmt, texts) == d && ValidDate(d)
    ensures StrpTime(s, fmt) == Some(d)
  {
  }

  /** The field values the two slashed four-digit-year formats read. */
  lemma SlashedFields(texts: seq<string>)
    requires |texts| == 5
    ensures Fields(MonthFirst, texts) == Date(DigitsValue(texts[4]), DigitsValue(texts[0]), DigitsValue(texts[2]))
    ensures Fields(DayFirst, texts) == Date(DigitsValue(texts[4]), DigitsValue(texts[2]), DigitsValue(texts[0]))
  {
    var t1, t2, t3, t4 := texts[1..], texts[2..], texts[3..], texts[4..];
    assert t1[1..] == t2 && t2[1..] == t3 && t3[1..] == t4 && t4[1..] == [];
    var year := Date(DigitsValue(texts[4]), 1, 1);
    assert Fields([Year4], t4) == year;
    assert Fields([Literal('/'), Year4], t3) == year;
    assert Fields([Day, Literal('/'), Year4], t2) == year.(day := DigitsValue(texts[2]));
    assert Fields([Month, Literal('/'), Year4], t2) == year.(month := DigitsValue(texts[2]));
    assert Fields([Literal('/'), Day, Literal('/'), Year4], t1) == year.(day := DigitsValue(texts[2]));
    assert Fields([Literal('/'), Month, Literal('/'), Year4], t1) == year.(month := DigitsValue(texts[2]));
  }

  /** The text of a date in 2024 from the digits of its month and day. */
  lemma IsoTextIn2024(d: Date)
    requires ValidDate(d) && d.year == 2024
    ensures IsoText(d) == ['2', '0', '2', '4', '-', Digit(d.month / 10), Digit(d.month % 10), '-', Digit(d.day / 10), Digit(d.day % 10)]
  {
    assert 2024 / 1000 == 2 && 2024 / 100 % 10 == 0 && 2024 / 10 % 10 == 2 && 2024 % 10 == 4;
    assert Digit(2) == '2' && Digit(0) == '0' && Digit(4) == '4';
  }

  /** A text that reads both ways is taken month first: 01/02/2024 is the second of January. */
  lemma AmbiguousDateIsMonthFirst()
    ensures ParsedDate("01/02/2024") == Ok("2024-01-02")
  {
    MonthFirstReads();
    SecondOfJanuaryText();
  }

  lemma SecondOfJanuaryText()
    ensures IsoText(Date(2024, 1, 2)) == "2024-01-02"
  {
    IsoTextIn2024(Date(2024, 1, 2));
    assert Digit(0) == '0' && Digit(1) == '1' && Digit(2) == '2';
  }

  lemma MonthFirstReads()
    ensures StrpTime("01/02/2024", MonthFirst) == Some(Date(2024, 1, 2))
  {
    var s := "01/02/2024";
    YearDigits2024(s);
    MonthFirstSlashed(s, 1, 2);
  }

  /** A first field above 12 cannot be a month, so parse_date falls through to day first. */
  lemma DayFirstFallback()
    ensures ParsedDate("13/01/2024") == Ok("2024-01-13")
  {
    var s := "13/01/2024";
    var d := Date(2024, 1, 13);
    MonthThirteenRejected(MonthFirst, s);
    MonthThirteenRejected(MonthFirstShort, s);
    IsoRejectsSlash(s);
    DayFirstReads();
    ThirteenthOfJanuaryText();
    assert FirstParsed(DateFormats[3..], s) == Ok(IsoText(d)) by {
      assert DateFormats[3..][0] == DayFirst;
    }
    FirstParsedSkip(DateFormats, s, 2);
    FirstParsedSkip(DateFormats, s, 1);
    FirstParsedSkip(DateFormats, s, 0);
    assert DateFormats[0..] == DateFormats;
  }

  lemma ThirteenthOfJanuaryText()
    ensures IsoText(Date(2024, 1, 13)) == "2024-01-13"
  {
    IsoTextIn2024(Date(2024, 1, 13));
    assert Digit(0) == '0' && Digit(1) == '1' && Digit(3) == '3';
  }

  lemma DayFirstReads()
    ensures StrpTime("13/01/2024", DayFirst) == Some(Date(2024, 1, 13))
  {
    var s := "13/01/2024";
    YearDigits2024(s);
    DayFirstSlashed(s, 13, 1);
  }

  lemma YearDigits2024(s: string)
    requires |s| == 10 && s[6..10] == "2024"
    ensures forall i :: 6 <= i < 10 ==> IsDigit(s[i])
    ensures DigitsValue(s[6..10]) == 2024
  {
    assert s[6..10] == ['2', '0', '2', '4'];
    FourDigitsValue('2', '0', '2', '4');
    forall i | 6 <= i < 10 ensures IsDigit(s[i]) {
      assert s[i] == s[6..10][i - 6];
    }
  }

  /** %Y-%m-%d fails on text with a slash among its first four characters. */
  lemma IsoRejectsSlash(s: string)
    requires |s| >= 3 && s[2] == '/'
    ensures StrpTime(s, IsoFormat) == None
  {
    var year := Alternatives(Year4);
    CharFails(year[0], s, 0, 2);
    SkipAlternative(IsoFormat, year, s, 0);
    assert year[1..] == [];
  }

  /** %m then a slash cannot read "13/": 13 is no month, and 1 leaves the 3 where the slash is. */
  lemma MonthThirteenRejected(fmt: seq<Directive>, s: string)
    requires |fmt| >= 2 && fmt[0] == Month && fmt[1] == Literal('/')
    requires |s| >= 2 && s[0] == '1' && s[1] == '3'
    ensures MatchFrom(fmt, s, 0) == None
  {
    var alts := Alternatives(Month);
    CharFails(alts[0], s, 0, 1);
    SkipAlternative(fmt, alts, s, 0);
    CharFails(alts[1..][0], s, 0, 0);
    SkipAlternative(fmt, alts[1..], s, 0);
    assert alts[1..][1..] == alts[2..];
    LiteralMismatch(fmt[1..], s, 1);
    assert alts[2..][1..] == [];
    assert TryAlternatives(fmt, alts[2..], s, 0) == None;
  }
}
