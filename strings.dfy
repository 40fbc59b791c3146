/** Character classes and string helpers shared by every stage.
    Every character test is the ASCII reading of the Python test it stands for
    (`str.isdigit`, `str.isalpha`, `str.isspace`, the regular-expression classes
    `\w` and `\d`). */
module Strings {

  predicate IsDigit(c: char) { '0' <= c <= '9' }

  predicate IsLetter(c: char) { 'a' <= c <= 'z' || 'A' <= c <= 'Z' }

  predicate IsAlnum(c: char) { IsDigit(c) || IsLetter(c) }

  /** A regular-expression word character, `\w`. */
  predicate IsWordChar(c: char) { IsAlnum(c) || c == '_' }

  /** `str.isspace` on ASCII: tab, line feed, vertical tab, form feed, carriage
      return, the separators 0x1C to 0x1F, and space. */
  predicate IsSpace(c: char) {
    var k := c as int;
    k == 32 || 9 <= k <= 13 || 28 <= k <= 31
  }

  predicate AllDigits(s: string) {
    forall i :: 0 <= i < |s| ==> IsDigit(s[i])
  }

  predicate AllSpaces(s: string) {
    forall i :: 0 <= i < |s| ==> IsSpace(s[i])
  }

  /** True when neither end of `s` is white space: what `str.strip` leaves. */
  predicate Trimmed(s: string) {
    s == [] || (!IsSpace(s[0]) && !IsSpace(s[|s| - 1]))
  }

  function ToLower(c: char): char {
    if 'A' <= c <= 'Z' then (c as int + 32) as char else c
  }

  /** `str.lower` on ASCII text. */
  function Lower(s: string): (r: string)
    ensures |r| == |s|
    ensures forall i :: 0 <= i < |s| ==> r[i] == ToLower(s[i])
  {
    seq(|s|, i requires 0 <= i < |s| => ToLower(s[i]))
  }

  // ---------------------------------------------------------------------------
  // Decimal numerals: Python's str(n) for a natural number

  function DigitChar(d: nat): (c: char)
    requires d < 10
    ensures IsDigit(c)
  {
    ('0' as int + d) as char
  }

  function NatToString(n: nat): (s: string)
    ensures |s| > 0 && AllDigits(s)
    decreases n
  {
    if n < 10 then [DigitChar(n)] else NatToString(n / 10) + [DigitChar(n % 10)]
  }

  /** The value of a string of decimal digits (Python's int(s) on such a string). */
  function DigitsValue(s: string): nat
    requires AllDigits(s)
    decreases |s|
  {
    if s == [] then 0 else DigitsValue(s[..|s| - 1]) * 10 + (s[|s| - 1] as int - '0' as int)
  }

  lemma {:induction false} NatToStringRoundTrip(n: nat)
    ensures DigitsValue(NatToString(n)) == n
    decreases n
  {
    if n >= 10 {
      NatToStringRoundTrip(n / 10);
      var s := NatToString(n);
      assert s[..|s| - 1] == NatToString(n / 10);
    }
  }

  /** Distinct numbers print differently, so `ID<n>` and `temp<n>` names never clash. */
  lemma NatToStringInjective(a: nat, b: nat)
    ensures NatToString(a) == NatToString(b) ==> a == b
  {
    NatToStringRoundTrip(a);
    NatToStringRoundTrip(b);
  }

  // ---------------------------------------------------------------------------
  // Searching

  /** Index of the first occurrence of `c` in `s`, or |s| when there is none. */
  function IndexOf(s: string, c: char): (i: nat)
    ensures i <= |s|
    ensures i < |s| <==> c in s
    ensures i < |s| ==> s[i] == c
    ensures forall k :: 0 <= k < i ==> s[k] != c
  {
    if s == [] then 0 else if s[0] == c then 0 else 1 + IndexOf(s[1..], c)
  }

  /** Index of the first character of `s` that belongs to `cs`, or |s|. */
  function IndexOfAny(s: string, cs: set<char>): (i: nat)
    ensures i <= |s|
    ensures i < |s| ==> s[i] in cs
    ensures forall k :: 0 <= k < i ==> s[k] !in cs
  {
    if s == [] then 0 else if s[0] in cs then 0 else 1 + IndexOfAny(s[1..], cs)
  }

  predicate StartsWith(s: string, prefix: string) {
    |prefix| <= |s| && s[..|prefix|] == prefix
  }

  // ---------------------------------------------------------------------------
  // str.strip()

  function TrimLeft(s: string): (r: string)
    ensures |r| <= |s| && r == s[|s| - |r|..]
    ensures AllSpaces(s[..|s| - |r|])
    ensures r == [] || !IsSpace(r[0])
    decreases |s|
  {
    if s != [] && IsSpace(s[0]) then
      var r := TrimLeft(s[1..]);
      assert s[1..][|s| - 1 - |r|..] == s[|s| - |r|..];
      assert s[..|s| - |r|] == [s[0]] + s[1..][..|s| - 1 - |r|];
      r
    else s
  }

  function TrimRight(s: string): (r: string)
    ensures |r| <= |s| && r == s[..|r|]
    ensures AllSpaces(s[|r|..])
    ensures r == [] || !IsSpace(r[|r| - 1])
    decreases |s|
  {
    if s != [] && IsSpace(s[|s| - 1]) then
      var r := TrimRight(s[..|s| - 1]);
      assert s[..|s| - 1][..|r|] == s[..|r|];
      assert s[|r|..] == s[..|s| - 1][|r|..] + [s[|s| - 1]];
      r
    else s
  }

  /** `str.strip()`: white space removed from both ends. */
  function Strip(s: string): (r: string)
    ensures Trimmed(r)
  {
    TrimRight(TrimLeft(s))
  }

  lemma {:induction false} TrimLeftSpaces(a: string, s: string)
    requires AllSpaces(a)
    requires s == [] || !IsSpace(s[0])
    ensures TrimLeft(a + s) == s
    decreases |a|
  {
    if a != [] {
      assert (a + s)[1..] == a[1..] + s;
      TrimLeftSpaces(a[1..], s);
    }
  }

  lemma {:induction false} TrimRightSpaces(s: string, b: string)
    requires AllSpaces(b)
    requires s == [] || !IsSpace(s[|s| - 1])
    ensures TrimRight(s + b) == s
    decreases |b|
  {
    if b != [] {
      assert (s + b)[..|s + b| - 1] == s + b[..|b| - 1];
      TrimRightSpaces(s, b[..|b| - 1]);
    }
  }

  /** Stripping undoes padding with white space on either side of trimmed text. */
  lemma StripPadded(a: string, s: string, b: string)
    requires AllSpaces(a) && AllSpaces(b) && Trimmed(s)
    ensures Strip(a + s + b) == s
  {
    if s == [] {
      assert a + s + b == a + b;
      assert AllSpaces(a + b);
      AllSpacesTrimLeft(a + b);
      assert TrimLeft(a + b) == [];
    } else {
      assert a + s + b == a + (s + b);
      TrimLeftSpaces(a, s + b);
      TrimRightSpaces(s, b);
    }
  }

  lemma {:induction false} AllSpacesTrimLeft(s: string)
    requires AllSpaces(s)
    ensures TrimLeft(s) == []
    decreases |s|
  {
    if s != [] {
      AllSpacesTrimLeft(s[1..]);
    }
  }

  // ---------------------------------------------------------------------------
  // Whole-word substitution, the two regular expressions `re.sub` is given in
  // the optimizer: \b[a-zA-Z_][a-zA-Z0-9_]*\b and \btemp\d+\b

  /** Length of the run of word characters that starts `s`. */
  function WordRun(s: string): (n: nat)
    ensures n <= |s|
    ensures forall k :: 0 <= k < n ==> IsWordChar(s[k])
    ensures n == |s| || !IsWordChar(s[n])
    decreases |s|
  {
    if s != [] && IsWordChar(s[0]) then 1 + WordRun(s[1..]) else 0
  }

  datatype WordPattern =
    | Identifier  // \b[a-zA-Z_][a-zA-Z0-9_]*\b
    | TempName    // \btemp\d+\b

  /** Whether the pattern matches the maximal word run `w` as a whole. Both
      patterns are anchored by \b on each side, so a match is always a whole run;
      the greedy tail of Identifier always reaches the end of the run, and
      TempName matches only when the run is `temp` followed by digits alone. */
  predicate MatchesRun(p: WordPattern, w: string) {
    match p
    case Identifier => |w| > 0 && (IsLetter(w[0]) || w[0] == '_')
    case TempName => |w| > 4 && w[..4] == "temp" && AllDigits(w[4..])
  }

  /** `re.sub(pattern, lambda m: m.group(0) mapped through table, s)`: every
      maximal word run that the pattern matches and that is a key of `table` is
      replaced by its entry; everything else is copied. */
  function Substitute(s: string, table: map<string, string>, p: WordPattern): string
    decreases |s|
  {
    if s == [] then []
    else if !IsWordChar(s[0]) then [s[0]] + Substitute(s[1..], table, p)
    else
      var n := WordRun(s);
      var w := s[..n];
      (if MatchesRun(p, w) && w in table then table[w] else w) + Substitute(s[n..], table, p)
  }

  lemma {:induction false} WordRunAppend(a: string, b: string)
    requires a != []
    requires b == [] || !IsWordChar(b[0]) || WordRun(a) < |a|
    ensures WordRun(a + b) == WordRun(a)
    decreases |a|
  {
    if IsWordChar(a[0]) && |a| > 1 {
      assert (a + b)[1..] == a[1..] + b;
      WordRunAppend(a[1..], b);
    } else if IsWordChar(a[0]) {
      assert (a + b)[1..] == b;
    }
  }

  /** Substitution works run by run, so it splits at any boundary that is not
      inside a word. */
  lemma {:induction false} SubstituteAppend(a: string, b: string, table: map<string, string>, p: WordPattern)
    requires a == [] || b == [] || !IsWordChar(a[|a| - 1]) || !IsWordChar(b[0])
    ensures Substitute(a + b, table, p) == Substitute(a, table, p) + Substitute(b, table, p)
    decreases |a|
  {
    if a == [] {
      assert a + b == b;
    } else if !IsWordChar(a[0]) {
      assert (a + b)[1..] == a[1..] + b;
      SubstituteAppend(a[1..], b, table, p);
    } else {
      var n := WordRun(a);
      if n < |a| {
        SubstituteAppend(a[n..], b, table, p);
      }
      SubstituteAppendWord(a, b, table, p);
    }
  }

  /** The step of SubstituteAppend where `a` starts with a word. */
  lemma SubstituteAppendWord(a: string, b: string, table: map<string, string>, p: WordPattern)
    requires a != [] && IsWordChar(a[0])
    requires b == [] || !IsWordChar(a[|a| - 1]) || !IsWordChar(b[0])
    requires WordRun(a) < |a| ==>
      Substitute(a[WordRun(a)..] + b, table, p) == Substitute(a[WordRun(a)..], table, p) + Substitute(b, table, p)
    ensures Substitute(a + b, table, p) == Substitute(a, table, p) + Substitute(b, table, p)
  {
    var n := WordRun(a);
    var w := a[..n];
    var x := if MatchesRun(p, w) && w in table then table[w] else w;
    WordRunAppend(a, b);
    SliceAppend(a, b, n);
    SubstituteWordStep(a + b, table, p);
    SubstituteWordStep(a, table, p);
    var ra, rb := Substitute(a[n..], table, p), Substitute(b, table, p);
    if n == |a| {
      assert a[n..] + b == b;
      assert x + ra == x;
    }
    ConcatAssoc(x, ra, rb);
  }

  /** Unfolding Substitute at a word run. */
  lemma SubstituteWordStep(s: string, table: map<string, string>, p: WordPattern)
    requires s != [] && IsWordChar(s[0])
    ensures Substitute(s, table, p)
         == (if MatchesRun(p, s[..WordRun(s)]) && s[..WordRun(s)] in table then table[s[..WordRun(s)]] else s[..WordRun(s)])
            + Substitute(s[WordRun(s)..], table, p)
  {
  }

  lemma SliceAppend(a: string, b: string, n: nat)
    requires n <= |a|
    ensures (a + b)[..n] == a[..n]
    ensures (a + b)[n..] == a[n..] + b
  {
  }

  lemma ConcatAssoc(x: string, y: string, z: string)
    ensures x + (y + z) == (x + y) + z
  {
  }

  /** A single word is replaced exactly when the pattern matches it and the
      table has it. */
  lemma SubstituteWord(w: string, table: map<string, string>, p: WordPattern)
    requires w != [] && forall k :: 0 <= k < |w| ==> IsWordChar(w[k])
    ensures Substitute(w, table, p) == if MatchesRun(p, w) && w in table then table[w] else w
  {
    WordRunWhole(w);
    assert w[..|w|] == w;
    assert w[|w|..] == [];
  }

  lemma {:induction false} WordRunWhole(w: string)
    requires forall k :: 0 <= k < |w| ==> IsWordChar(w[k])
    ensures WordRun(w) == |w|
    decreases |w|
  {
    if w != [] {
      WordRunWhole(w[1..]);
    }
  }

  /** Text without word characters is never changed. */
  lemma {:induction false} SubstituteNoWords(s: string, table: map<string, string>, p: WordPattern)
    requires forall k :: 0 <= k < |s| ==> !IsWordChar(s[k])
    ensures Substitute(s, table, p) == s
    decreases |s|
  {
    if s != [] {
      SubstituteNoWords(s[1..], table, p);
    }
  }

  /** An empty table changes nothing. */
  lemma {:induction false} SubstituteEmpty(s: string, p: WordPattern)
    ensures Substitute(s, map[], p) == s
    decreases |s|
  {
    if s != [] {
      if !IsWordChar(s[0]) {
        SubstituteEmpty(s[1..], p);
      } else {
        var n := WordRun(s);
        SubstituteEmpty(s[n..], p);
        assert s[..n] + s[n..] == s;
      }
    }
  }
}
