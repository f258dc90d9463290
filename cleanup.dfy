/**
  The cleanup pass of store-name normalization: five single-pass regular-expression
  removals, the business-suffix removal, whitespace collapsing and stripping.
  Each re.sub is written out as the left-to-right scan the regex engine performs:
  at each position either a match starts there (and is removed, the scan resuming
  after it) or the character is kept and the scan moves one position on.
*/
module Cleanup {
  import opened Text

  /** The longest prefix of `s` whose characters satisfy `p` is dropped. */
  function DropWhile(p: char -> bool, s: string): (r: string)
    ensures |r| <= |s| && r == s[|s| - |r|..]
    ensures r == [] || !p(r[0])
    ensures forall i :: 0 <= i < |s| - |r| ==> p(s[i])
  {
    if s != [] && p(s[0]) then DropWhile(p, s[1..]) else s
  }

  predicate IsCodeChar(c: char) { IsUpper(c) || IsDigit(c) }

  /** `mark` followed by at least one character of `body` starts a match at `i`. */
  predicate MarkedAt(s: string, i: int, mark: char, body: char -> bool)
  {
    0 <= i && i + 1 < |s| && s[i] == mark && body(s[i + 1])
  }

  /** re.sub(re.escape(mark) + body + '+', '', s): each mark followed by a maximal
      non-empty run of body characters is removed. */
  function RemoveMarked(s: string, mark: char, body: char -> bool): (r: string)
    requires !body(mark)
    ensures |r| <= |s|
    ensures r != [] && body(r[0]) ==> s != [] && body(s[0])
    ensures forall i :: !MarkedAt(r, i, mark, body)
    decreases |s|
  {
    if s == [] then []
    else if MarkedAt(s, 0, mark, body) then RemoveMarked(DropWhile(body, s[1..]), mark, body)
    else
      var rest := RemoveMarked(s[1..], mark, body);
      assert forall i :: 1 <= i ==> MarkedAt([s[0]] + rest, i, mark, body) == MarkedAt(rest, i - 1, mark, body);
      [s[0]] + rest
  }

  /** Without the mark there is nothing to remove. */
  lemma {:induction false} RemoveMarkedAbsent(s: string, mark: char, body: char -> bool)
    requires !body(mark) && mark !in s
    ensures RemoveMarked(s, mark, body) == s
    decreases |s|
  {
    if s != [] {
      RemoveMarkedAbsent(s[1..], mark, body);
    }
  }

  lemma TailOfCons(c: char, x: string, y: string)
    ensures ([c] + x + y)[1..] == x + y && ([c] + x + y)[0] == c
    ensures x != [] ==> ([c] + x + y)[1] == x[0]
  {
    assert [c] + x + y == [c] + (x + y);
  }

  /** Dropping the leading run of `p` characters from a run followed by a non-`p` character. */
  lemma {:induction false} DropWhileRun(p: char -> bool, run: string, b: string)
    requires forall i :: 0 <= i < |run| ==> p(run[i])
    requires b == [] || !p(b[0])
    ensures DropWhile(p, run + b) == b
    decreases |run|
  {
    if run == [] {
      assert run + b == b;
    } else {
      var s := run + b;
      assert s[0] == run[0] && s[1..] == run[1..] + b;
      DropWhileRun(p, run[1..], b);
    }
  }

  /** Text without the mark is kept, in order, in front of whatever the rest becomes. */
  lemma {:induction false} RemoveMarkedKeeps(a: string, b: string, mark: char, body: char -> bool)
    requires !body(mark) && mark !in a
    ensures RemoveMarked(a + b, mark, body) == a + RemoveMarked(b, mark, body)
    decreases |a|
  {
    if a == [] {
      assert a + b == b;
    } else {
      var s := a + b;
      AppendFirst(a, b);
      RemoveMarkedStep(s, mark, body);
      assert mark !in a[1..];
      RemoveMarkedKeeps(a[1..], b, mark, body);
      ConsThenAppend(a, RemoveMarked(b, mark, body));
    }
  }

  /** One step of the scan where no match starts: the character is kept. */
  lemma RemoveMarkedStep(s: string, mark: char, body: char -> bool)
    requires !body(mark) && s != [] && !MarkedAt(s, 0, mark, body)
    ensures RemoveMarked(s, mark, body) == [s[0]] + RemoveMarked(s[1..], mark, body)
  {
  }

  /** A mark and its maximal run of body characters are removed together. */
  lemma RemoveMarkedDrops(code: string, b: string, mark: char, body: char -> bool)
    requires !body(mark)
    requires code != [] && forall i :: 0 <= i < |code| ==> body(code[i])
    requires b == [] || !body(b[0])
    ensures RemoveMarked([mark] + code + b, mark, body) == RemoveMarked(b, mark, body)
  {
    var s := [mark] + code + b;
    TailOfCons(mark, code, b);
    assert MarkedAt(s, 0, mark, body) by { assert s[0] == mark && s[1] == code[0]; }
    DropWhileRun(body, code, b);
    RemoveMarkedAtMark(s, mark, body);
  }

  /** One step of the scan where a match starts. */
  lemma RemoveMarkedAtMark(s: string, mark: char, body: char -> bool)
    requires !body(mark) && MarkedAt(s, 0, mark, body)
    ensures RemoveMarked(s, mark, body) == RemoveMarked(DropWhile(body, s[1..]), mark, body)
  {
  }

  /** A mark with no body character after it is kept. */
  lemma RemoveMarkedLoneMark(b: string, mark: char, body: char -> bool)
    requires !body(mark)
    requires b == [] || !body(b[0])
    ensures RemoveMarked([mark] + b, mark, body) == [mark] + RemoveMarked(b, mark, body)
  {
    var s := [mark] + b;
    assert s[1..] == b;
  }

  /** re.sub(r'\*[A-Z0-9]+', '', s) */
  function RemoveStarCodes(s: string): string
  {
    RemoveMarked(s, '*', IsCodeChar)
  }

  /** re.sub(r'#\d+', '', s) */
  function RemoveHashCodes(s: string): string
  {
    RemoveMarked(s, '#', IsDigit)
  }

  /** A whitespace character directly followed by four digits: every match of \s+\d{4,} holds one. */
  predicate LongNumberAt(s: string, i: int)
  {
    0 <= i && i + 4 < |s| && IsSpace(s[i])
    && IsDigit(s[i + 1]) && IsDigit(s[i + 2]) && IsDigit(s[i + 3]) && IsDigit(s[i + 4])
  }

  /** Prepending a character keeps a string free of long numbers unless it is whitespace
      in front of four digits. */
  lemma ConsNoLongNumber(c: char, rest: string)
    requires forall i :: !LongNumberAt(rest, i)
    requires IsSpace(c) ==> LeadingDigits(rest) < 4
    ensures forall i :: !LongNumberAt([c] + rest, i)
  {
    var r := [c] + rest;
    forall i | 1 <= i ensures LongNumberAt(r, i) == LongNumberAt(rest, i - 1) {}
  }

  /** re.sub(r'\s+\d{4,}', '', s): a maximal whitespace run followed by four or more digits is
      removed together with all of those digits, wherever it occurs; afterwards no whitespace is
      followed by four digits. */
  function RemoveLongNumbers(s: string): (r: string)
    ensures |r| <= |s|
    ensures LeadingDigits(r) == LeadingDigits(s)
    ensures forall i :: !LongNumberAt(r, i)
    decreases |s|
  {
    if s == [] then []
    else
      var t := TrimLeft(s);
      var n := LeadingDigits(t);
      if IsSpace(s[0]) && n >= 4 then
        RemoveLongNumbers(t[n..])
      else
        var rest := RemoveLongNumbers(s[1..]);
        assert IsSpace(s[0]) ==> LeadingDigits(s[1..]) < 4 by {
          if IsSpace(s[0]) && s[1..] != [] && !IsSpace(s[1]) {
            assert t == s[1..];
          }
        }
        ConsNoLongNumber(s[0], rest);
        [s[0]] + rest
  }

  /** Text without whitespace is kept, in order, in front of whatever the rest becomes. */
  lemma {:induction false} RemoveLongNumbersKeeps(a: string, b: string)
    requires forall i :: 0 <= i < |a| ==> !IsSpace(a[i])
    ensures RemoveLongNumbers(a + b) == a + RemoveLongNumbers(b)
    decreases |a|
  {
    if a == [] {
      assert a + b == b;
    } else {
      var s := a + b;
      AppendFirst(a, b);
      RemoveLongNumbersKeepsFirst(s);
      RemoveLongNumbersKeeps(a[1..], b);
      ConsThenAppend(a, RemoveLongNumbers(b));
    }
  }

  /** A maximal whitespace run followed by four or more digits is removed with all of them. */
  lemma RemoveLongNumbersDrops(ws: string, rest: string)
    requires ws != [] && forall i :: 0 <= i < |ws| ==> IsSpace(ws[i])
    requires rest == [] || !IsSpace(rest[0])
    requires LeadingDigits(rest) >= 4
    ensures RemoveLongNumbers(ws + rest) == RemoveLongNumbers(rest[LeadingDigits(rest)..])
  {
    var s := ws + rest;
    assert s[0] == ws[0];
    TrimLeftRun(ws, rest);
  }

  /** A maximal whitespace run followed by fewer than four digits is kept. */
  lemma {:induction false} RemoveLongNumbersShortRun(ws: string, rest: string)
    requires forall i :: 0 <= i < |ws| ==> IsSpace(ws[i])
    requires rest == [] || !IsSpace(rest[0])
    requires LeadingDigits(rest) < 4
    ensures RemoveLongNumbers(ws + rest) == ws + RemoveLongNumbers(rest)
    decreases |ws|
  {
    if ws == [] {
      assert ws + rest == rest;
    } else {
      var s := ws + rest;
      AppendFirst(ws, rest);
      TrimLeftRun(ws, rest);
      RemoveLongNumbersKeepsFirst(s);
      RemoveLongNumbersShortRun(ws[1..], rest);
      ConsThenAppend(ws, RemoveLongNumbers(rest));
    }
  }

  /** A whitespace character at i directly followed by a digit. */
  predicate SpaceThenDigitAt(s: string, i: int)
  {
    0 <= i && i + 1 < |s| && IsSpace(s[i]) && IsDigit(s[i + 1])
  }

  /** Without a whitespace character followed by a digit there is nothing to remove. */
  lemma {:induction false} RemoveLongNumbersAbsent(s: string)
    requires forall i | 0 <= i < |s| :: !SpaceThenDigitAt(s, i)
    ensures RemoveLongNumbers(s) == s
    decreases |s|
  {
    if s != [] {
      var tail := s[1..];
      assert s == [s[0]] + tail;
      assert forall i | 0 <= i < |tail| :: SpaceThenDigitAt(tail, i) ==> SpaceThenDigitAt(s, i + 1);
      RemoveLongNumbersAbsent(tail);
      if IsSpace(s[0]) {
        NoDigitAfterSpaces(s);
      }
      RemoveLongNumbersKeepsFirst(s);
    }
  }

  /** Unless it opens a whitespace run before four digits, the first character is kept. */
  lemma RemoveLongNumbersKeepsFirst(s: string)
    requires s != [] && !(IsSpace(s[0]) && LeadingDigits(TrimLeft(s)) >= 4)
    ensures RemoveLongNumbers(s) == [s[0]] + RemoveLongNumbers(s[1..])
  {
  }

  /** Past a whitespace run that no digit follows, the text starts with no digit. */
  lemma NoDigitAfterSpaces(s: string)
    requires s != [] && IsSpace(s[0])
    requires forall i | 0 <= i < |s| :: !SpaceThenDigitAt(s, i)
    ensures LeadingDigits(TrimLeft(s)) == 0
  {
    var t := TrimLeft(s);
    if t != [] {
      var j := |s| - |t|;
      assert t[0] == s[j] && IsSpace(s[j - 1]);
      assert !SpaceThenDigitAt(s, j - 1);
    }
  }

  predicate IsAce(c: char) { c == 'a' || c == 'c' || c == 'e' }

  /** re.sub(r'Mktpl[ace]*\s*', '', s), case-sensitive. */
  function RemoveMarketplace(s: string): (r: string)
    ensures |r| <= |s|
    decreases |s|
  {
    if s == [] then []
    else if "Mktpl" <= s then RemoveMarketplace(TrimLeft(DropWhile(IsAce, s[5..])))
    else [s[0]] + RemoveMarketplace(s[1..])
  }

  /** re.sub(r'Pmts?\s*', '', s), case-sensitive. */
  function RemovePayment(s: string): (r: string)
    ensures |r| <= |s|
    decreases |s|
  {
    if s == [] then []
    else if "Pmt" <= s then
      var t := s[3..];
      RemovePayment(TrimLeft(if t != [] && t[0] == 's' then t[1..] else t))
    else [s[0]] + RemovePayment(s[1..])
  }

  /** A literal that does not occur in the text is never removed. */
  lemma {:induction false} RemoveMarketplaceAbsent(s: string)
    requires !IsSubstring("Mktpl", s)
    ensures RemoveMarketplace(s) == s
    decreases |s|
  {
    if s != [] {
      assert !("Mktpl" <= s[0..]);
      assert !IsSubstring("Mktpl", s[1..]) by {
        forall i | 0 <= i <= |s[1..]| - 5 ensures !("Mktpl" <= s[1..][i..]) {
          assert s[1..][i..] == s[i + 1..];
        }
      }
      RemoveMarketplaceAbsent(s[1..]);
    }
  }

  lemma {:induction false} RemovePaymentAbsent(s: string)
    requires !IsSubstring("Pmt", s)
    ensures RemovePayment(s) == s
    decreases |s|
  {
    if s != [] {
      assert !("Pmt" <= s[0..]);
      assert !IsSubstring("Pmt", s[1..]) by {
        forall i | 0 <= i <= |s[1..]| - 3 ensures !("Pmt" <= s[1..][i..]) {
          assert s[1..][i..] == s[i + 1..];
        }
      }
      RemovePaymentAbsent(s[1..]);
    }
  }

  /** A literal followed by more text starts that text, and is followed by the rest. */
  lemma LiteralThen(lit: string, rest: string)
    ensures lit <= lit + rest && (lit + rest)[|lit|..] == rest
  {
  }

  /** A character where no "Mktpl" starts is kept. */
  lemma RemoveMarketplaceStep(s: string)
    requires s != [] && !("Mktpl" <= s)
    ensures RemoveMarketplace(s) == [s[0]] + RemoveMarketplace(s[1..])
  {
  }

  /** Text without an "M" is kept, in order, in front of whatever the rest becomes. */
  lemma {:induction false} RemoveMarketplaceKeeps(a: string, b: string)
    requires 'M' !in a
    ensures RemoveMarketplace(a + b) == a + RemoveMarketplace(b)
    decreases |a|
  {
    if a == [] {
      assert a + b == b;
    } else {
      var s := a + b;
      AppendFirst(a, b);
      RemoveMarketplaceStep(s);
      assert 'M' !in a[1..];
      RemoveMarketplaceKeeps(a[1..], b);
      ConsThenAppend(a, RemoveMarketplace(b));
    }
  }

  /** "Mktpl", the longest run of a/c/e after it and the whitespace after that are removed. */
  lemma RemoveMarketplaceDrops(aces: string, ws: string, b: string)
    requires forall i :: 0 <= i < |aces| ==> IsAce(aces[i])
    requires forall i :: 0 <= i < |ws| ==> IsSpace(ws[i])
    requires ws + b == [] || !IsAce((ws + b)[0])
    requires b == [] || !IsSpace(b[0])
    ensures RemoveMarketplace("Mktpl" + aces + ws + b) == RemoveMarketplace(b)
  {
    var rest := aces + (ws + b);
    Regroup("Mktpl", aces, ws, b);
    LiteralThen("Mktpl", rest);
    DropWhileRun(IsAce, aces, ws + b);
    TrimLeftRun(ws, b);
    RemoveMarketplaceAtMatch("Mktpl" + rest);
  }

  /** One step of the scan where "Mktpl" starts. */
  lemma RemoveMarketplaceAtMatch(s: string)
    requires "Mktpl" <= s
    ensures RemoveMarketplace(s) == RemoveMarketplace(TrimLeft(DropWhile(IsAce, s[5..])))
  {
  }

  lemma Regroup(lit: string, x: string, y: string, z: string)
    ensures lit + x + y + z == lit + (x + (y + z))
  {
  }

  /** A character where no "Pmt" starts is kept. */
  lemma RemovePaymentStep(s: string)
    requires s != [] && !("Pmt" <= s)
    ensures RemovePayment(s) == [s[0]] + RemovePayment(s[1..])
  {
  }

  /** Text without a "P" is kept, in order, in front of whatever the rest becomes. */
  lemma {:induction false} RemovePaymentKeeps(a: string, b: string)
    requires 'P' !in a
    ensures RemovePayment(a + b) == a + RemovePayment(b)
    decreases |a|
  {
    if a == [] {
      assert a + b == b;
    } else {
      var s := a + b;
      AppendFirst(a, b);
      RemovePaymentStep(s);
      assert 'P' !in a[1..];
      RemovePaymentKeeps(a[1..], b);
      ConsThenAppend(a, RemovePayment(b));
    }
  }

  /** "Pmt", an "s" right after it if there is one, and the whitespace after that are removed. */
  lemma RemovePaymentDrops(plural: string, ws: string, b: string)
    requires plural == "" || plural == "s"
    requires plural == "" ==> ws + b == [] || (ws + b)[0] != 's'
    requires forall i :: 0 <= i < |ws| ==> IsSpace(ws[i])
    requires b == [] || !IsSpace(b[0])
    ensures RemovePayment("Pmt" + plural + ws + b) == RemovePayment(b)
  {
    var rest := plural + (ws + b);
    Regroup("Pmt", plural, ws, b);
    LiteralThen("Pmt", rest);
    if plural == "s" {
      assert rest[1..] == ws + b;
    } else {
      assert rest == ws + b;
    }
    TrimLeftRun(ws, b);
    RemovePaymentAtMatch("Pmt" + rest);
  }

  /** One step of the scan where "Pmt" starts. */
  lemma RemovePaymentAtMatch(s: string)
    requires "Pmt" <= s
    ensures var t := s[3..]; RemovePayment(s) == RemovePayment(TrimLeft(if t != [] && t[0] == 's' then t[1..] else t))
  {
  }

  /** The business suffixes, tried once each in this order. */
  const Suffixes: seq<string> := ["Inc", "LLC", "Corp", "Ltd", "Co", "Company"]

  /** Where `$` matches: before one final newline, else at the end. */
  function BodyEnd(s: string): (e: nat)
    ensures e <= |s|
  {
    if s != [] && s[|s| - 1] == '\n' then |s| - 1 else |s|
  }

  /** The text before the optional period `\.?`. */
  function DropPeriod(body: string): (core: string)
    ensures |core| <= |body| && core == body[..|core|]
  {
    if body != [] && body[|body| - 1] == '.' then body[..|body| - 1] else body
  }

  /** re.sub(r'\s+' + suffix + r'\.?$', '', s, flags=re.IGNORECASE). Without MULTILINE, `$` matches at
      the end and also before one final newline, which the removal keeps. The match starts at the
      beginning of the whitespace run before the suffix, so all of that run is removed. */
  function StripSuffix(s: string, suffix: string): (r: string)
  {
    var e := BodyEnd(s);
    var core := DropPeriod(s[..e]);
    var n := |core| - |suffix|;
    if n >= 1 && Lower(core[n..]) == Lower(suffix) && IsSpace(core[n - 1]) then TrimRight(core[..n]) + s[e..]
    else s
  }

  /** A name, whitespace, the suffix in any letter case and an optional period become the name. */
  lemma StripSuffixAtEnd(name: string, spaces: string, written: string, period: string, suffix: string)
    requires name != [] && !IsSpace(name[|name| - 1])
    requires spaces != [] && forall i :: 0 <= i < |spaces| ==> IsSpace(spaces[i])
    requires suffix != [] && IsLetter(suffix[|suffix| - 1]) && Lower(written) == Lower(suffix)
    requires period == "" || period == "."
    ensures StripSuffix(name + spaces + written + period, suffix) == name
  {
    var s := name + spaces + written + period;
    var core := name + spaces + written;
    assert |written| == |suffix| by { assert |Lower(written)| == |written|; }
    assert Lower(written)[|written| - 1] == LowerChar(written[|written| - 1]);
    assert s[|s| - 1] == if period == "" then written[|written| - 1] else '.';
    assert BodyEnd(s) == |s|;
    assert s[..|s|] == s;
    assert DropPeriod(s) == core by {
      if period == "." {
        assert s[..|s| - 1] == core;
      } else {
        assert s == core;
      }
    }
    var n := |core| - |suffix|;
    assert core[n..] == written;
    assert core[..n] == name + spaces;
    assert core[n - 1] == spaces[|spaces| - 1];
    TrimRightPadding(name, spaces);
    assert s[|s|..] == [];
    assert TrimRight(core[..n]) + s[|s|..] == name;
  }

  /** Each suffix of `suffixes` is tried once, in order. */
  function StripSuffixes(s: string, suffixes: seq<string>): string
    decreases |suffixes|
  {
    if suffixes == [] then s else StripSuffixes(StripSuffix(s, suffixes[0]), suffixes[1..])
  }

  /** The five removals, the suffixes, the whitespace collapse and the final strip, in source order. */
  function Cleaned(original: string): string
  {
    var noCodes := RemoveHashCodes(RemoveStarCodes(original));
    var noTags := RemovePayment(RemoveMarketplace(RemoveLongNumbers(noCodes)));
    Strip(CollapseSpaces(StripSuffixes(noTags, Suffixes)))
  }

  /** The cleaned name is well spaced: no whitespace at its ends, only single plain spaces inside. */
  lemma CleanedWellSpaced(original: string)
    ensures WellSpaced(Cleaned(original))
  {
    var noCodes := RemoveHashCodes(RemoveStarCodes(original));
    var noTags := RemovePayment(RemoveMarketplace(RemoveLongNumbers(noCodes)));
    StripCollapsedWellSpaced(StripSuffixes(noTags, Suffixes));
  }

  lemma {:induction false} StripSuffixesEmpty(suffixes: seq<string>)
    ensures StripSuffixes([], suffixes) == []
    decreases |suffixes|
  {
    if suffixes != [] {
      StripSuffixesEmpty(suffixes[1..]);
    }
  }

  /** Nothing is left of an empty name. */
  lemma CleanedEmpty()
    ensures Cleaned([]) == []
  {
    StripSuffixesEmpty(Suffixes);
  }

  /** "SOME RANDOM STORE LLC": no codes, numbers or tags to remove, and "LLC" is the only suffix. */
  lemma RandomStoreCleaned()
    ensures Cleaned("SOME RANDOM STORE LLC") == "SOME RANDOM STORE"
  {
    RandomStoreNoCodes();
    RandomStoreNoTags();
    RandomStoreSuffixes();
    RandomStoreSpacing();
  }

  lemma RandomStoreNoCodes()
    ensures RemoveHashCodes(RemoveStarCodes("SOME RANDOM STORE LLC")) == "SOME RANDOM STORE LLC"
  {
    var s := "SOME RANDOM STORE LLC";
    assert '*' !in s && '#' !in s;
    RemoveMarkedAbsent(s, '*', IsCodeChar);
    RemoveMarkedAbsent(s, '#', IsDigit);
  }

  lemma RandomStoreNoNumbers()
    ensures RemoveLongNumbers("SOME RANDOM STORE LLC") == "SOME RANDOM STORE LLC"
  {
    var s := "SOME RANDOM STORE LLC";
    assert forall i :: 0 <= i < |s| ==> !IsDigit(s[i]);
    RemoveLongNumbersAbsent(s);
  }

  lemma RandomStoreNoTags()
    ensures RemovePayment(RemoveMarketplace(RemoveLongNumbers("SOME RANDOM STORE LLC"))) == "SOME RANDOM STORE LLC"
  {
    RandomStoreNoNumbers();
    RandomStoreNoMarketplace();
    RandomStoreNoPayment();
  }

  lemma RandomStoreNoMarketplace()
    ensures RemoveMarketplace("SOME RANDOM STORE LLC") == "SOME RANDOM STORE LLC"
  {
    var s := "SOME RANDOM STORE LLC";
    assert 'k' !in s;
    MissingChar("Mktpl", s, 'k');
    RemoveMarketplaceAbsent(s);
  }

  lemma RandomStoreNoPayment()
    ensures RemovePayment("SOME RANDOM STORE LLC") == "SOME RANDOM STORE LLC"
  {
    var s := "SOME RANDOM STORE LLC";
    assert 't' !in s;
    MissingChar("Pmt", s, 't');
    RemovePaymentAbsent(s);
  }

  lemma RandomStoreInc()
    ensures StripSuffix("SOME RANDOM STORE LLC", "Inc") == "SOME RANDOM STORE LLC"
  {
    var s := "SOME RANDOM STORE LLC";
    assert BodyEnd(s) == |s| && s[..|s|] == s && DropPeriod(s) == s;
    assert Lower(s[18..])[0] == 'l' && Lower("Inc")[0] == 'i';
  }

  lemma RandomStoreLLC()
    ensures StripSuffix("SOME RANDOM STORE LLC", "LLC") == "SOME RANDOM STORE"
  {
    assert "SOME RANDOM STORE LLC" == "SOME RANDOM STORE" + " " + "LLC" + "";
    StripSuffixAtEnd("SOME RANDOM STORE", " ", "LLC", "", "LLC");
  }

  lemma RandomStoreLaterSuffixes()
    ensures StripSuffix("SOME RANDOM STORE", "Corp") == "SOME RANDOM STORE"
    ensures StripSuffix("SOME RANDOM STORE", "Ltd") == "SOME RANDOM STORE"
    ensures StripSuffix("SOME RANDOM STORE", "Co") == "SOME RANDOM STORE"
    ensures StripSuffix("SOME RANDOM STORE", "Company") == "SOME RANDOM STORE"
  {
    var t := "SOME RANDOM STORE";
    assert BodyEnd(t) == |t| && t[..|t|] == t && DropPeriod(t) == t;
    assert t[13..] == "TORE" && t[14..] == "ORE" && t[15..] == "RE" && t[10..] == "M STORE";
  }

  lemma RandomStoreSuffixes()
    ensures StripSuffixes("SOME RANDOM STORE LLC", Suffixes) == "SOME RANDOM STORE"
  {
    var t := "SOME RANDOM STORE";
    RandomStoreInc();
    RandomStoreLLC();
    RandomStoreLaterSuffixes();
    calc {
      StripSuffixes("SOME RANDOM STORE LLC", Suffixes);
      StripSuffixes("SOME RANDOM STORE LLC", ["LLC", "Corp", "Ltd", "Co", "Company"]);
      StripSuffixes(t, ["Corp", "Ltd", "Co", "Company"]);
      StripSuffixes(t, ["Ltd", "Co", "Company"]);
      StripSuffixes(t, ["Co", "Company"]);
      StripSuffixes(t, ["Company"]);
      StripSuffixes(t, []);
    }
  }

  lemma RandomStoreSpacing()
    ensures Strip(CollapseSpaces("SOME RANDOM STORE")) == "SOME RANDOM STORE"
  {
    var t := "SOME RANDOM STORE";
    assert PlainSpaces(t);
    assert NoDoubleSpace(t);
    CollapseSingleSpaces(t);
    StripOfTrimmed(t);
  }
}
