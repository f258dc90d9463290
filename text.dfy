/**
  The Python string built-ins the core relies on, for ASCII text:
  str.isspace / the regex class \s, str.lower, str.title, str.strip,
  the `in` substring test and re.sub(r'\s+', ' ', s).
  Characters outside ASCII are treated as uncased non-space characters.
*/
module Text {

  /** str.isspace() on ASCII: space, \t \n \v \f \r and the separators 0x1C-0x1F. */
  predicate IsSpace(c: char) { c == ' ' || 9 <= c as int <= 13 || 28 <= c as int <= 31 }

  predicate IsDigit(c: char) { '0' <= c <= '9' }

  predicate IsUpper(c: char) { 'A' <= c <= 'Z' }

  predicate IsLower(c: char) { 'a' <= c <= 'z' }

  /** The cased characters of ASCII. */
  predicate IsLetter(c: char) { IsUpper(c) || IsLower(c) }

  function LowerChar(c: char): char { if IsUpper(c) then (c as int + 32) as char else c }

  function UpperChar(c: char): char { if IsLower(c) then (c as int - 32) as char else c }

  /** The number of leading digits of `s`. */
  function LeadingDigits(s: string): (n: nat)
    ensures n <= |s|
    ensures forall i :: 0 <= i < n ==> IsDigit(s[i])
    ensures n < |s| ==> !IsDigit(s[n])
  {
    if s != [] && IsDigit(s[0]) then 1 + LeadingDigits(s[1..]) else 0
  }

  /** str.lower() */
  function Lower(s: string): string { seq(|s|, i requires 0 <= i < |s| => LowerChar(s[i])) }

  /** One character of str.title(): a letter is upper-cased when the character
      before it is not a letter, and lower-cased otherwise. */
  function TitleCharAt(s: string, i: nat): char
    requires i < |s|
  {
    if !IsLetter(s[i]) then s[i]
    else if i > 0 && IsLetter(s[i - 1]) then LowerChar(s[i])
    else UpperChar(s[i])
  }

  /** str.title() */
  function Title(s: string): string { seq(|s|, i requires 0 <= i < |s| => TitleCharAt(s, i)) }

  /** str.lstrip(): drops the leading whitespace. */
  function TrimLeft(s: string): (r: string)
    ensures |r| <= |s| && r == s[|s| - |r|..]
    ensures r == [] || !IsSpace(r[0])
    ensures forall i :: 0 <= i < |s| - |r| ==> IsSpace(s[i])
  {
    if s != [] && IsSpace(s[0]) then TrimLeft(s[1..]) else s
  }

  /** str.rstrip(): drops the trailing whitespace. */
  function TrimRight(s: string): (r: string)
    ensures |r| <= |s| && r == s[..|r|]
    ensures r == [] || !IsSpace(r[|r| - 1])
    ensures forall i :: |r| <= i < |s| ==> IsSpace(s[i])
  {
    if s != [] && IsSpace(s[|s| - 1]) then TrimRight(s[..|s| - 1]) else s
  }

  /** str.strip() */
  function Strip(s: string): string { TrimRight(TrimLeft(s)) }

  /** Python's `p in s` for strings. */
  predicate IsSubstring(p: string, s: string) { exists i :: 0 <= i <= |s| - |p| && p <= s[i..] }

  /** any(w in s for w in words) */
  predicate ContainsAny(words: seq<string>, s: string) { exists w <- words :: IsSubstring(w, s) }

  /** re.sub(r'\s+', ' ', s): every maximal run of whitespace becomes one space. */
  function CollapseSpaces(s: string): (r: string)
    ensures r == [] <==> s == []
    ensures s != [] && !IsSpace(s[0]) ==> r[0] == s[0]
    ensures PlainSpaces(r) && NoDoubleSpace(r)
    decreases |s|
  {
    if s == [] then []
    else
      var tail := if IsSpace(s[0]) then TrimLeft(s[1..]) else s[1..];
      var rest := CollapseSpaces(tail);
      var c := if IsSpace(s[0]) then ' ' else s[0];
      assert IsSpace(s[0]) && rest != [] ==> !IsSpace(rest[0]);
      ConsSpacing(c, rest);
      [c] + rest
  }

  /** A character in front of single-spaced text keeps it single-spaced unless a space meets a
      space. */
  lemma ConsSpacing(c: char, rest: string)
    requires PlainSpaces(rest) && NoDoubleSpace(rest)
    requires IsSpace(c) ==> c == ' ' && (rest == [] || !IsSpace(rest[0]))
    ensures PlainSpaces([c] + rest) && NoDoubleSpace([c] + rest)
  {
    var r := [c] + rest;
    assert forall i :: 0 < i < |r| ==> r[i] == rest[i - 1];
    assert forall i :: 0 < i < |r| ==> DoubleSpaceAt(r, i) == DoubleSpaceAt(rest, i - 1);
    assert !DoubleSpaceAt(r, 0);
  }

  /** Every whitespace character is a plain space. */
  predicate PlainSpaces(s: string) {
    forall i :: 0 <= i < |s| && IsSpace(s[i]) ==> s[i] == ' '
  }

  /** The characters at i and i + 1 are both whitespace. */
  predicate DoubleSpaceAt(s: string, i: int) {
    0 <= i && i + 1 < |s| && IsSpace(s[i]) && IsSpace(s[i + 1])
  }

  /** No two whitespace characters in a row. */
  predicate NoDoubleSpace(s: string) {
    forall i | 0 <= i < |s| :: !DoubleSpaceAt(s, i)
  }

  /** No whitespace at either end, every whitespace character a plain space,
      and no two spaces in a row. */
  predicate WellSpaced(s: string) {
    && (s == [] || (!IsSpace(s[0]) && !IsSpace(s[|s| - 1])))
    && PlainSpaces(s)
    && NoDoubleSpace(s)
  }

  lemma LowerCharOfCase(c: char)
    ensures LowerChar(UpperChar(c)) == LowerChar(c) && LowerChar(LowerChar(c)) == LowerChar(c)
    ensures UpperChar(UpperChar(c)) == UpperChar(c) && UpperChar(LowerChar(c)) == UpperChar(c)
    ensures IsLetter(LowerChar(c)) == IsLetter(c) && IsLetter(UpperChar(c)) == IsLetter(c)
    ensures IsSpace(LowerChar(c)) == IsSpace(c) && LowerChar(c) == ' ' <==> c == ' '
  {
  }

  /** Title-casing changes only the case of letters. */
  lemma LowerOfTitle(s: string)
    ensures Lower(Title(s)) == Lower(s)
  {
    forall i | 0 <= i < |s| ensures Lower(Title(s))[i] == Lower(s)[i] { LowerCharOfCase(s[i]); }
  }

  /** str.title() is idempotent. */
  lemma TitleIdempotent(s: string)
    ensures Title(Title(s)) == Title(s)
  {
    var t := Title(s);
    forall i | 0 <= i < |s| ensures Title(t)[i] == t[i] {
      LowerCharOfCase(s[i]);
      if i > 0 { LowerCharOfCase(s[i - 1]); }
    }
  }

  /** Title-casing keeps every whitespace character and every plain space where it was. */
  lemma TitleKeepsSpaces(s: string)
    ensures |Title(s)| == |s|
    ensures forall i :: 0 <= i < |s| ==> (IsSpace(Title(s)[i]) <==> IsSpace(s[i]))
    ensures forall i :: 0 <= i < |s| ==> (Title(s)[i] == ' ' <==> s[i] == ' ')
  {
    forall i | 0 <= i < |s| ensures (IsSpace(Title(s)[i]) <==> IsSpace(s[i])) && (Title(s)[i] == ' ' <==> s[i] == ' ') {
      LowerCharOfCase(s[i]);
    }
  }

  lemma TitleKeepsWellSpaced(s: string)
    requires WellSpaced(s)
    ensures WellSpaced(Title(s))
  {
    TitleKeepsSpaces(s);
    var t := Title(s);
    forall i | 0 <= i < |t| ensures !DoubleSpaceAt(t, i) {
      assert DoubleSpaceAt(t, i) == DoubleSpaceAt(s, i);
    }
  }

  /** A string without whitespace at its ends is its own strip(). */
  lemma StripOfTrimmed(s: string)
    requires s == [] || (!IsSpace(s[0]) && !IsSpace(s[|s| - 1]))
    ensures Strip(s) == s
  {
  }

  /** strip() yields the empty string exactly for all-whitespace input. */
  lemma StripEmpty(s: string)
    ensures Strip(s) == [] <==> forall i :: 0 <= i < |s| ==> IsSpace(s[i])
  {
  }

  /** strip() of a collapsed string is well spaced: the cleanup at the end of store normalization. */
  lemma StripCollapsedWellSpaced(s: string)
    ensures WellSpaced(Strip(CollapseSpaces(s)))
  {
    StripWellSpaced(CollapseSpaces(s));
  }

  /** strip() of a string with only single plain spaces is well spaced. */
  lemma StripWellSpaced(c: string)
    requires PlainSpaces(c) && NoDoubleSpace(c)
    ensures WellSpaced(Strip(c))
  {
    var l := TrimLeft(c);
    assert l == c[|c| - |l|..|c|];
    SliceSpacing(c, |c| - |l|, |c|);
    var r := TrimRight(l);
    assert r == l[0..|r|];
    SliceSpacing(l, 0, |r|);
    if r != [] {
      assert r[0] == l[0];
    }
  }

  /** A piece of a string keeps its plain spaces and its lack of double spaces. */
  lemma SliceSpacing(c: string, lo: int, hi: int)
    requires 0 <= lo <= hi <= |c| && PlainSpaces(c) && NoDoubleSpace(c)
    ensures PlainSpaces(c[lo..hi]) && NoDoubleSpace(c[lo..hi])
  {
    var r := c[lo..hi];
    forall i | 0 <= i < |r| ensures r[i] == c[lo + i] {
    }
    forall i | 0 <= i < |r| ensures !DoubleSpaceAt(r, i) {
      if DoubleSpaceAt(r, i) {
        assert DoubleSpaceAt(c, lo + i);
      }
    }
  }

  /** Lower-casing keeps whitespace, so it commutes with strip(). */
  lemma LowerKeepsSpaces(s: string)
    ensures |Lower(s)| == |s|
    ensures forall i :: 0 <= i < |s| ==> (IsSpace(Lower(s)[i]) <==> IsSpace(s[i]))
  {
    forall i | 0 <= i < |s| ensures IsSpace(Lower(s)[i]) <==> IsSpace(s[i]) { LowerCharOfCase(s[i]); }
  }

  /** A substring test can reuse the witness of a longer pattern it is a prefix of. */
  lemma PrefixOfSubstring(p: string, q: string, s: string)
    requires p <= q && IsSubstring(q, s)
    ensures IsSubstring(p, s)
  {
    var i :| 0 <= i <= |s| - |q| && q <= s[i..];
    assert p <= s[i..];
  }

  /** The empty string contains only the empty pattern. */
  lemma NothingInEmpty(p: string)
    requires p != []
    ensures !IsSubstring(p, [])
  {
  }

  /** strip() removes exactly the whitespace padding around a name. */
  lemma StripPadded(left: string, s: string, right: string)
    requires forall i :: 0 <= i < |left| ==> IsSpace(left[i])
    requires forall i :: 0 <= i < |right| ==> IsSpace(right[i])
    requires s != [] && !IsSpace(s[0]) && !IsSpace(s[|s| - 1])
    ensures Strip(left + s + right) == s
  {
    TrimLeftPadding(left, s + right);
    assert left + s + right == left + (s + right);
    TrimRightPadding(s, right);
  }

  lemma {:induction false} TrimLeftPadding(left: string, s: string)
    requires forall i :: 0 <= i < |left| ==> IsSpace(left[i])
    requires s != [] && !IsSpace(s[0])
    ensures TrimLeft(left + s) == s
    decreases |left|
  {
    if left == [] {
      assert left + s == s;
    } else {
      var t := left + s;
      assert t[0] == left[0];
      assert t[1..] == left[1..] + s;
      TrimLeftPadding(left[1..], s);
    }
  }

  lemma {:induction false} TrimRightPadding(s: string, right: string)
    requires forall i :: 0 <= i < |right| ==> IsSpace(right[i])
    requires s != [] && !IsSpace(s[|s| - 1])
    ensures TrimRight(s + right) == s
    decreases |right|
  {
    if right == [] {
      assert s + right == s;
    } else {
      var t := s + right;
      var shorter := right[..|right| - 1];
      assert t[|t| - 1] == right[|right| - 1];
      assert t[..|t| - 1] == s + shorter;
      TrimRightPadding(s, shorter);
    }
  }

  /** lstrip() of a whitespace run followed by text that starts with no whitespace is that text. */
  lemma TrimLeftRun(ws: string, b: string)
    requires forall i :: 0 <= i < |ws| ==> IsSpace(ws[i])
    requires b == [] || !IsSpace(b[0])
    ensures TrimLeft(ws + b) == b
  {
    if b != [] {
      TrimLeftPadding(ws, b);
    } else {
      assert ws + b == ws;
    }
  }

  /** Text without whitespace passes through the collapse unchanged, in order. */
  lemma {:induction false} CollapseKeeps(a: string, b: string)
    requires forall i :: 0 <= i < |a| ==> !IsSpace(a[i])
    ensures CollapseSpaces(a + b) == a + CollapseSpaces(b)
    decreases |a|
  {
    if a == [] {
      assert a + b == b;
    } else {
      var s := a + b;
      AppendFirst(a, b);
      CollapseStep(s);
      CollapseKeeps(a[1..], b);
      ConsThenAppend(a, CollapseSpaces(b));
    }
  }

  /** One step of the collapse at a character that is not whitespace: it is kept. */
  lemma CollapseStep(s: string)
    requires s != [] && !IsSpace(s[0])
    ensures CollapseSpaces(s) == [s[0]] + CollapseSpaces(s[1..])
  {
  }

  /** A maximal non-empty whitespace run becomes one plain space. */
  lemma CollapseRun(ws: string, b: string)
    requires ws != [] && forall i :: 0 <= i < |ws| ==> IsSpace(ws[i])
    requires b == [] || !IsSpace(b[0])
    ensures CollapseSpaces(ws + b) == " " + CollapseSpaces(b)
  {
    var s := ws + b;
    AppendFirst(ws, b);
    TrimLeftRun(ws[1..], b);
    CollapseSpaceStep(s);
  }

  /** One step of the collapse at whitespace: the run becomes one space. */
  lemma CollapseSpaceStep(s: string)
    requires s != [] && IsSpace(s[0])
    ensures CollapseSpaces(s) == " " + CollapseSpaces(TrimLeft(s[1..]))
  {
  }

  /** The first character and the rest of a non-empty `a` followed by `b`. */
  lemma AppendFirst(a: string, b: string)
    requires a != []
    ensures (a + b)[0] == a[0] && (a + b)[1..] == a[1..] + b
  {
  }

  /** The first character of `a`, then the rest of `a` followed by `b`, is `a` followed by `b`. */
  lemma ConsThenAppend(a: string, b: string)
    requires a != []
    ensures [a[0]] + (a[1..] + b) == a + b
  {
    assert a == [a[0]] + a[1..];
  }

  /** A pattern holding a character the text lacks does not occur in it. */
  lemma MissingChar(p: string, s: string, c: char)
    requires c in p && c !in s
    ensures !IsSubstring(p, s)
  {
  }

  /** A pattern holding a character outside the text's alphabet does not occur in it. */
  lemma SomeCharOutside(p: string, s: string, alphabet: set<char>, j: int)
    requires 0 <= j < |p| && p[j] !in alphabet
    requires forall i | 0 <= i < |s| :: s[i] in alphabet
    ensures !IsSubstring(p, s)
  {
  }

  /** The same when only the text's last character may lie outside the alphabet and the pattern's
      character at j is followed by another. */
  lemma SomeCharOutsideBeforeEnd(p: string, s: string, alphabet: set<char>, j: int)
    requires 0 <= j < |p| - 1 && p[j] !in alphabet
    requires forall i | 0 <= i < |s| - 1 :: s[i] in alphabet
    ensures !IsSubstring(p, s)
  {
  }

  /** Collapsing changes nothing where every whitespace character is a lone plain space. */
  lemma {:induction false} CollapseSingleSpaces(s: string)
    requires PlainSpaces(s) && NoDoubleSpace(s)
    ensures CollapseSpaces(s) == s
    decreases |s|
  {
    if s != [] {
      var t := s[1..|s|];
      SliceSpacing(s, 1, |s|);
      CollapseSingleSpaces(t);
      if IsSpace(s[0]) {
        if t != [] {
          assert !DoubleSpaceAt(s, 0);
          assert !IsSpace(t[0]);
        }
        assert TrimLeft(t) == t;
        assert t == s[1..];
        CollapseSpaceStep(s);
        assert s == [' '] + t;
      } else {
        assert t == s[1..];
        CollapseStep(s);
        assert s == [s[0]] + t;
      }
    }
  }
}
