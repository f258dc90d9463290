/**
  Amount parsing of the bank parsers: float(s.replace(",", "").replace("$", "")) on a stripped
  field. Python's float() is modelled on its decimal grammar (surrounding whitespace, an optional
  sign, digits with an optional fraction, an optional exponent) with exact real values.
*/
module Amounts {
  import opened Wrappers
  import opened Text

  /** s.replace(c, ""): every occurrence of c removed, the other characters kept in order. */
  function RemoveChar(s: string, c: char): (r: string)
    ensures c !in r && |r| <= |s|
  {
    if s == [] then []
    else (if s[0] == c then [] else [s[0]]) + RemoveChar(s[1..], c)
  }

  /** Removing a character that does not occur changes nothing. */
  lemma {:induction false} RemoveCharAbsent(s: string, c: char)
    requires c !in s
    ensures RemoveChar(s, c) == s
  {
    if s != [] {
      assert c !in s[1..];
      RemoveCharAbsent(s[1..], c);
    }
  }

  /** Removal keeps every other character and drops exactly the occurrences of c. The order of
      the kept characters is stated by RemoveCharAppend. */
  lemma {:induction false} RemoveCharKeeps(s: string, c: char)
    ensures forall d | d != c :: d in RemoveChar(s, c) <==> d in s
    ensures |RemoveChar(s, c)| == |s| - multiset(s)[c]
  {
    if s != [] {
      RemoveCharKeeps(s[1..], c);
      assert s == [s[0]] + s[1..];
      assert multiset(s) == multiset([s[0]]) + multiset(s[1..]);
    }
  }

  /** Removal distributes over concatenation, and a single character is dropped exactly when it
      is c: the kept characters stay in their order. */
  lemma {:induction false} RemoveCharAppend(a: string, b: string, c: char)
    ensures RemoveChar(a + b, c) == RemoveChar(a, c) + RemoveChar(b, c)
    ensures a != [] ==> RemoveChar([a[0]], c) == if a[0] == c then [] else [a[0]]
  {
    if a != [] {
      assert (a + b)[1..] == a[1..] + b;
      assert [a[0]][1..] == [];
      RemoveCharAppend(a[1..], b, c);
    } else {
      assert a + b == b;
    }
  }

  /** The thousands separators and the dollar sign removed before conversion. */
  function CleanAmount(s: string): (r: string)
    ensures ',' !in r && '$' !in r
  {
    RemoveCharKeeps(RemoveChar(s, ','), '$');
    RemoveChar(RemoveChar(s, ','), '$')
  }

  function DigitValue(c: char): nat
  {
    if IsDigit(c) then (c as int - '0' as int) else 0
  }

  /** The value of a string of decimal digits. */
  function DigitsValue(d: string): nat
  {
    if d == [] then 0 else 10 * DigitsValue(d[..|d| - 1]) + DigitValue(d[|d| - 1])
  }

  /** 10 to the power e, for any integer e. */
  function Pow10(e: int): (r: real)
    ensures r > 0.0
    decreases if e < 0 then -e else e
  {
    if e == 0 then 1.0 else if e > 0 then 10.0 * Pow10(e - 1) else Pow10(e + 1) / 10.0
  }

  /** A decimal literal as float() reads it: sign, integer digits, fraction digits, exponent. */
  datatype Decimal = Decimal(negative: bool, intDigits: string, fracDigits: string, exponent: int)

  function Value(d: Decimal): real
  {
    var magnitude := (DigitsValue(d.intDigits) as real + DigitsValue(d.fracDigits) as real / Pow10(|d.fracDigits|)) * Pow10(d.exponent);
    if d.negative then -magnitude else magnitude
  }

  function SignOf(t: string): (r: (bool, string))
    ensures |r.1| <= |t|
  {
    if t != [] && (t[0] == '-' || t[0] == '+') then (t[0] == '-', t[1..]) else (false, t)
  }

  /** The exponent part: nothing, or e/E, an optional sign and at least one digit, up to the end. */
  function ScanExponent(s: string): Option<int>
  {
    if s == [] then Some(0)
    else if s[0] == 'e' || s[0] == 'E' then
      var (negative, digits) := SignOf(s[1..]);
      if digits != [] && LeadingDigits(digits) == |digits| then
        Some(if negative then -(DigitsValue(digits) as int) else DigitsValue(digits) as int)
      else None
    else None
  }

  /** The decimal grammar of float() on a stripped string: an optional sign, then the digits. */
  function ScanDecimal(t: string): Option<Decimal>
  {
    var (negative, body) := SignOf(t);
    ScanBody(negative, body)
  }

  /** The integer digits, then the rest. */
  function ScanBody(negative: bool, body: string): Option<Decimal>
  {
    var n := LeadingDigits(body);
    ScanFraction(negative, body[..n], body[n..])
  }

  /** After the integer digits: an optional point and fraction digits. */
  function ScanFraction(negative: bool, intDigits: string, rest: string): Option<Decimal>
  {
    if rest != [] && rest[0] == '.' then
      var m := LeadingDigits(rest[1..]);
      ScanTail(negative, intDigits, rest[1..][..m], rest[1..][m..])
    else ScanTail(negative, intDigits, [], rest)
  }

  /** At least one digit before or after the point, and an exponent part up to the end. */
  function ScanTail(negative: bool, intDigits: string, fracDigits: string, tail: string): Option<Decimal>
  {
    if |intDigits| + |fracDigits| == 0 then None
    else match ScanExponent(tail)
      case None => None
      case Some(e) => Some(Decimal(negative, intDigits, fracDigits, e))
  }

  /** float(s): None where Python raises ValueError. */
  function ParseFloat(s: string): (r: Option<real>)
    ensures Strip(s) == [] ==> r == None
  {
    match ScanDecimal(Strip(s))
      case None => None
      case Some(d) => Some(Value(d))
  }

  /** The amount conversion of both bank parsers. */
  function ParseAmount(s: string): (r: Option<real>)
    ensures (forall i :: 0 <= i < |s| ==> s[i] == ',' || s[i] == '$' || IsSpace(s[i])) ==> r == None
  {
    MarksOnlyCleanBlank(s);
    ParseFloat(CleanAmount(s))
  }

  /** A cell of separators, dollar signs and whitespace cleans to whitespace only. */
  lemma MarksOnlyCleanBlank(s: string)
    ensures (forall i :: 0 <= i < |s| ==> s[i] == ',' || s[i] == '$' || IsSpace(s[i])) ==> Strip(CleanAmount(s)) == []
  {
    if forall i :: 0 <= i < |s| ==> s[i] == ',' || s[i] == '$' || IsSpace(s[i]) {
      var t := RemoveChar(s, ',');
      var u := RemoveChar(t, '$');
      RemoveCharKeeps(s, ',');
      RemoveCharKeeps(t, '$');
      forall i | 0 <= i < |u| ensures IsSpace(u[i]) {
        assert u[i] in u;
      }
      StripEmpty(u);
    }
  }

  /** The decimal digits of n, most significant first, without leading zeros. */
  function NatDigits(n: nat): (r: string)
    ensures r != [] && forall i :: 0 <= i < |r| ==> IsDigit(r[i])
    ensures DigitsValue(r) == n
    decreases n
  {
    var last := ('0' as int + n % 10) as char;
    if n < 10 then [last]
    else
      var r := NatDigits(n / 10) + [last];
      assert r[..|r| - 1] == NatDigits(n / 10);
      r
  }

  /** An amount in cents written as [-]dollars.cc, as a bank statement shows it. */
  function FormatCents(cents: int): string
  {
    var magnitude := if cents < 0 then -cents else cents;
    FormatParts(cents < 0, magnitude / 100, magnitude % 100 / 10, magnitude % 100 % 10)
  }

  function FormatParts(negative: bool, dollars: nat, tens: nat, units: nat): string
  {
    Signed(negative, NatDigits(dollars) + "." + (NatDigits(tens) + NatDigits(units)))
  }

  /** A minus sign in front of a negative amount's digits. */
  function Signed(negative: bool, body: string): string
  {
    if negative then "-" + body else body
  }

  /** The leading digits of a digit string followed by a non-digit are exactly that string. */
  lemma {:induction false} LeadingDigitsOfDigits(d: string, rest: string)
    requires forall i :: 0 <= i < |d| ==> IsDigit(d[i])
    requires rest == [] || !IsDigit(rest[0])
    ensures LeadingDigits(d + rest) == |d|
    decreases |d|
  {
    if d != [] {
      assert (d + rest)[1..] == d[1..] + rest;
      LeadingDigitsOfDigits(d[1..], rest);
    } else {
      assert d + rest == rest;
    }
  }

  /** A digit string, a point and a digit string scan as that decimal with exponent 0. */
  lemma ScanPointed(negative: bool, d: string, f: string)
    requires d != [] && forall i :: 0 <= i < |d| ==> IsDigit(d[i])
    requires forall i :: 0 <= i < |f| ==> IsDigit(f[i])
    ensures ScanDecimal(Signed(negative, d + "." + f)) == Some(Decimal(negative, d, f, 0))
  {
    var body := d + "." + f;
    assert body[0] == d[0];
    SignOfSigned(negative, body);
    ScanBodyPointed(negative, d, f);
  }

  lemma SignOfSigned(negative: bool, body: string)
    requires body == [] || (body[0] != '-' && body[0] != '+')
    ensures SignOf(Signed(negative, body)) == (negative, body)
  {
    if negative {
      assert ("-" + body)[1..] == body;
    }
  }

  lemma ScanBodyPointed(negative: bool, d: string, f: string)
    requires d != [] && forall i :: 0 <= i < |d| ==> IsDigit(d[i])
    requires forall i :: 0 <= i < |f| ==> IsDigit(f[i])
    ensures ScanBody(negative, d + "." + f) == Some(Decimal(negative, d, f, 0))
  {
    var body := d + "." + f;
    assert body == d + ("." + f);
    LeadingDigitsOfDigits(d, "." + f);
    assert body[|d|..] == "." + f && body[..|d|] == d;
    ScanPointFraction(negative, d, f);
  }

  lemma ScanPointFraction(negative: bool, d: string, f: string)
    requires d != []
    requires forall i :: 0 <= i < |f| ==> IsDigit(f[i])
    ensures ScanFraction(negative, d, "." + f) == Some(Decimal(negative, d, f, 0))
  {
    var rest := "." + f;
    assert rest[1..] == f;
    LeadingDigitsOfDigits(f, []);
    assert f + [] == f;
    assert f[..|f|] == f && f[|f|..] == [];
  }

  /** Two digits after the point are a number of hundredths. */
  lemma HundredthsValue(cents: int, dollars: nat, tens: nat, units: nat, d: Decimal)
    requires tens < 10 && units < 10
    requires 100 * dollars + 10 * tens + units == if cents < 0 then -cents else cents
    requires d == Decimal(cents < 0, NatDigits(dollars), NatDigits(tens) + NatDigits(units), 0)
    ensures Value(d) == cents as real / 100.0
  {
    TwoDigits(tens, units);
    PointedValue(cents < 0, dollars, d.fracDigits);
    SignedHundredths(cents, dollars, 10 * tens + units);
  }

  /** The value of a decimal with two fraction digits and no exponent. */
  lemma PointedValue(negative: bool, dollars: nat, fraction: string)
    requires |fraction| == 2
    ensures var magnitude := dollars as real + DigitsValue(fraction) as real / 100.0;
      Value(Decimal(negative, NatDigits(dollars), fraction, 0)) == if negative then -magnitude else magnitude
  {
    var d := Decimal(negative, NatDigits(dollars), fraction, 0);
    var magnitude := dollars as real + DigitsValue(fraction) as real / 100.0;
    assert Pow10(|fraction|) == 100.0 by { assert Pow10(1) == 10.0; }
    assert Pow10(d.exponent) == 1.0;
    assert DigitsValue(d.intDigits) == dollars;
    ScaledByOne(magnitude, Pow10(d.exponent));
  }

  lemma ScaledByOne(x: real, one: real)
    requires one == 1.0
    ensures x * one == x
  {
  }

  lemma SignedHundredths(cents: int, dollars: nat, hundredths: nat)
    requires 100 * dollars + hundredths == if cents < 0 then -cents else cents
    ensures var magnitude := dollars as real + hundredths as real / 100.0;
      (if cents < 0 then -magnitude else magnitude) == cents as real / 100.0
  {
  }

  lemma TwoDigits(tens: nat, units: nat)
    requires tens < 10 && units < 10
    ensures var f := NatDigits(tens) + NatDigits(units);
      && |f| == 2 && (forall i :: 0 <= i < |f| ==> IsDigit(f[i])) && DigitsValue(f) == 10 * tens + units
  {
    var f := NatDigits(tens) + NatDigits(units);
    assert f[..1] == NatDigits(tens);
    assert f[0] == NatDigits(tens)[0] && f[1] == NatDigits(units)[0];
  }

  /** The dollars, tens and units of a number of cents, written with its sign, read back as that
      many hundredths. */
  lemma ParseFormatParts(cents: int, dollars: nat, tens: nat, units: nat)
    requires tens < 10 && units < 10
    requires 100 * dollars + 10 * tens + units == if cents < 0 then -cents else cents
    ensures var r := ParseAmount(FormatParts(cents < 0, dollars, tens, units));
      r.Some? && r.value == cents as real / 100.0
  {
    var d := Decimal(cents < 0, NatDigits(dollars), NatDigits(tens) + NatDigits(units), 0);
    ParseFormatPartsDecimal(cents < 0, dollars, tens, units, d);
    HundredthsValue(cents, dollars, tens, units, d);
  }

  /** A written amount scans as the decimal it was written from. */
  lemma ParseFormatPartsDecimal(negative: bool, dollars: nat, tens: nat, units: nat, d: Decimal)
    requires tens < 10 && units < 10
    requires d == Decimal(negative, NatDigits(dollars), NatDigits(tens) + NatDigits(units), 0)
    ensures ParseAmount(FormatParts(negative, dollars, tens, units)) == Some(Value(d))
  {
    var fraction := NatDigits(tens) + NatDigits(units);
    var s := FormatParts(negative, dollars, tens, units);
    TwoDigits(tens, units);
    CleanFormatParts(negative, dollars, tens, units);
    StripFormatParts(negative, dollars, tens, units);
    ScanPointed(negative, NatDigits(dollars), fraction);
    assert ScanDecimal(Strip(CleanAmount(s))) == Some(d);
  }

  /** A written amount has no separators or dollar signs to remove. */
  lemma CleanFormatParts(negative: bool, dollars: nat, tens: nat, units: nat)
    requires tens < 10 && units < 10
    ensures CleanAmount(FormatParts(negative, dollars, tens, units)) == FormatParts(negative, dollars, tens, units)
  {
    var s := FormatParts(negative, dollars, tens, units);
    TwoDigits(tens, units);
    assert ',' !in s && '$' !in s;
    RemoveCharAbsent(s, ',');
    RemoveCharAbsent(s, '$');
  }

  /** A written amount has no surrounding whitespace. */
  lemma StripFormatParts(negative: bool, dollars: nat, tens: nat, units: nat)
    requires tens < 10 && units < 10
    ensures Strip(FormatParts(negative, dollars, tens, units)) == FormatParts(negative, dollars, tens, units)
  {
    var s := FormatParts(negative, dollars, tens, units);
    var fraction := NatDigits(tens) + NatDigits(units);
    TwoDigits(tens, units);
    assert s[|s| - 1] == fraction[1];
    StripOfTrimmed(s);
  }

  lemma CentsDigits(magnitude: nat)
    ensures magnitude == 100 * (magnitude / 100) + 10 * (magnitude % 100 / 10) + magnitude % 100 % 10
    ensures magnitude % 100 / 10 < 10 && magnitude % 100 % 10 < 10
  {
    var r := magnitude % 100;
    assert magnitude == 100 * (magnitude / 100) + r;
    assert r == 10 * (r / 10) + r % 10;
  }

  /** Every amount written in cents reads back as that many hundredths. */
  lemma ParseFormatCents(cents: int)
    ensures var r := ParseAmount(FormatCents(cents)); r.Some? && r.value == cents as real / 100.0
  {
    var magnitude := if cents < 0 then -cents else cents;
    var dollars, tens, units := magnitude / 100, magnitude % 100 / 10, magnitude % 100 % 10;
    CentsDigits(magnitude);
    assert FormatCents(cents) == FormatParts(cents < 0, dollars, tens, units);
    ParseFormatParts(cents, dollars, tens, units);
  }

  /** Digits with a comma before every group of three from the right, as in "1,234,567". */
  function GroupThousands(d: string): string
    decreases |d|
  {
    if |d| <= 3 then d else GroupThousands(d[..|d| - 3]) + "," + d[|d| - 3..]
  }

  /** An amount in cents written as a statement shows it, with a dollar sign and thousands
      separators: "$1,234.56", "-$1,234.56". */
  function FormatDollars(cents: int): string
  {
    var magnitude := if cents < 0 then -cents else cents;
    DollarParts(cents < 0, magnitude / 100, magnitude % 100 / 10, magnitude % 100 % 10)
  }

  function DollarParts(negative: bool, dollars: nat, tens: nat, units: nat): string
  {
    Signed(negative, "$" + GroupThousands(NatDigits(dollars)) + "." + (NatDigits(tens) + NatDigits(units)))
  }

  /** Removing the commas of grouped digits gives the digits back. */
  lemma {:induction false} UngroupThousands(d: string)
    requires ',' !in d
    ensures RemoveChar(GroupThousands(d), ',') == d
    decreases |d|
  {
    if |d| <= 3 {
      RemoveCharAbsent(d, ',');
    } else {
      var k := |d| - 3;
      var head, tail := d[..k], d[k..];
      assert d == head + tail;
      assert ',' !in head && ',' !in tail;
      UngroupThousands(head);
      RemoveCharAbsent(tail, ',');
      DropSeparator(GroupThousands(head), head, tail);
    }
  }

  /** One separator between two ungrouped parts disappears. */
  lemma DropSeparator(grouped: string, head: string, tail: string)
    requires RemoveChar(grouped, ',') == head && RemoveChar(tail, ',') == tail
    ensures RemoveChar(grouped + "," + tail, ',') == head + tail
  {
    var marked := grouped + ",";
    RemoveCharAppend(grouped, ",", ',');
    assert RemoveChar(",", ',') == [];
    assert RemoveChar(marked, ',') == head;
    RemoveCharAppend(marked, tail, ',');
  }

  /** A minus sign is never removed. */
  lemma RemoveCharSigned(negative: bool, body: string, c: char)
    requires c != '-'
    ensures RemoveChar(Signed(negative, body), c) == Signed(negative, RemoveChar(body, c))
  {
    if negative {
      RemoveCharAppend("-", body, c);
      assert RemoveChar("-", c) == "-";
    }
  }

  /** A digit string has no separator or dollar sign to remove. */
  lemma RemoveCharOfDigits(d: string, c: char)
    requires forall i :: 0 <= i < |d| ==> IsDigit(d[i])
    requires !IsDigit(c)
    ensures RemoveChar(d, c) == d
  {
    assert c !in d;
    RemoveCharAbsent(d, c);
  }

  /** Removing a separator from "$" + grouped digits + "." + fraction ungroups the digits. */
  lemma RemoveSeparators(g: string, n: string, f: string)
    requires RemoveChar(g, ',') == n && RemoveChar(f, ',') == f
    ensures RemoveChar("$" + g + "." + f, ',') == "$" + n + "." + f
  {
    RemoveCharAppend("$" + g + ".", f, ',');
    RemoveCharAppend("$" + g, ".", ',');
    RemoveCharAppend("$", g, ',');
  }

  /** Removing the dollar sign from "$" + digits + "." + fraction leaves digits + "." + fraction. */
  lemma RemoveDollarSign(n: string, f: string)
    requires RemoveChar(n, '$') == n && RemoveChar(f, '$') == f
    ensures RemoveChar("$" + n + "." + f, '$') == n + "." + f
  {
    var a := "$" + n;
    var b := a + ".";
    RemoveCharAppend("$", n, '$');
    assert RemoveChar("$", '$') == [];
    assert RemoveChar(a, '$') == n;
    RemoveCharAppend(a, ".", '$');
    assert RemoveChar(".", '$') == ".";
    assert RemoveChar(b, '$') == n + ".";
    RemoveCharAppend(b, f, '$');
  }

  /** Cleaning a statement amount leaves the plain [-]dollars.cc text. */
  lemma CleanDollarParts(negative: bool, dollars: nat, tens: nat, units: nat)
    requires tens < 10 && units < 10
    ensures CleanAmount(DollarParts(negative, dollars, tens, units)) == FormatParts(negative, dollars, tens, units)
  {
    var n := NatDigits(dollars);
    var f := NatDigits(tens) + NatDigits(units);
    var g := GroupThousands(n);
    TwoDigits(tens, units);
    RemoveCharOfDigits(n, ',');
    UngroupThousands(n);
    RemoveCharOfDigits(f, ',');
    RemoveCharOfDigits(n, '$');
    RemoveCharOfDigits(f, '$');
    RemoveSeparators(g, n, f);
    RemoveDollarSign(n, f);
    RemoveCharSigned(negative, "$" + g + "." + f, ',');
    RemoveCharSigned(negative, "$" + n + "." + f, '$');
    assert DollarParts(negative, dollars, tens, units) == Signed(negative, "$" + g + "." + f);
    assert FormatParts(negative, dollars, tens, units) == Signed(negative, n + "." + f);
  }

  /** An amount written with a dollar sign and thousands separators reads the same as the plain
      [-]dollars.cc text, and so as that many hundredths: "$1,234.56" is 1234.56. */
  lemma ParseFormatDollars(cents: int)
    ensures ParseAmount(FormatDollars(cents)) == ParseAmount(FormatCents(cents))
    ensures var r := ParseAmount(FormatDollars(cents)); r.Some? && r.value == cents as real / 100.0
  {
    var magnitude := if cents < 0 then -cents else cents;
    var dollars, tens, units := magnitude / 100, magnitude % 100 / 10, magnitude % 100 % 10;
    CentsDigits(magnitude);
    CleanDollarParts(cents < 0, dollars, tens, units);
    CleanFormatParts(cents < 0, dollars, tens, units);
    ParseFormatCents(cents);
  }

  /** "$1,234.56" reads as 1234.56. */
  lemma ThousandsSeparatedAmount()
    ensures ParseAmount("$1,234.56") == Some(1234.56)
  {
    assert NatDigits(1234) == "1234" by {
      assert NatDigits(1) == "1";
      assert NatDigits(12) == "12";
      assert NatDigits(123) == "123";
    }
    assert GroupThousands("1234") == "1,234";
    assert NatDigits(5) + NatDigits(6) == "56";
    assert FormatDollars(123456) == "$1,234.56";
    ParseFormatDollars(123456);
  }
}
