/** The character scanner of lexer/lexer.py: `read_number` and `lexical_walk`.
    It turns one equation into typed tokens and numbers the identifiers ID1, ID2, ...
    in the order they first occur. */
module Lexer {
  import opened Wrappers
  import opened Strings

  datatype TokenKind = IDENTIFIER | INT | FLOAT | ASSIGN | OPERATOR | LPAREN | RPAREN

  datatype Token = Token(kind: TokenKind, value: string)

  /** The four ValueErrors the scanner raises, with what their messages carry. */
  datatype LexError =
    | SecondDot(pos: nat)                         // "Invalid token '.' at position i"
    | LetterAfterNumber(c: char, number: string)  // "Invalid token 'c' after number 'n'"
    | DotAfterIdentifier(ident: string)           // "identifier 'x' cannot be followed by '.'"
    | InvalidCharacter(c: char, pos: nat)         // "Invalid character 'c' at position i"

  predicate IsNumberChar(c: char) { IsDigit(c) || c == '.' }

  // ---------------------------------------------------------------------------
  // read_number

  /** End of the maximal run of digits and dots that starts at `start`. */
  function RunEnd(s: string, start: nat): (e: nat)
    ensures start <= e
    ensures start <= |s| ==> e <= |s|
    ensures forall k :: start <= k < e ==> k < |s| && IsNumberChar(s[k])
    ensures e >= |s| || !IsNumberChar(s[e])
    decreases |s| - start
  {
    if start < |s| && IsNumberChar(s[start]) then RunEnd(s, start + 1) else start
  }

  /** Index in `s` of the dot that has exactly `n` dots before it, or |s|. */
  function DotIndex(s: string, n: nat): (i: nat)
    ensures i <= |s|
    ensures i < |s| ==> s[i] == '.' && multiset(s[..i])['.'] == n
    ensures i == |s| ==> multiset(s)['.'] <= n
    decreases |s|
  {
    if s == [] then 0
    else if s[0] == '.' && n == 0 then 0
    else
      var m := if s[0] == '.' then n - 1 else n;
      var i := 1 + DotIndex(s[1..], m);
      ConsSlice(s, i);
      i
  }

  lemma ConsSlice(s: string, i: nat)
    requires 1 <= i <= |s|
    ensures s[..i] == [s[0]] + s[1..][..i - 1]
    ensures s == [s[0]] + s[1..]
  {
  }

  /** The number text as read_number returns it: a leading dot gets a 0 in
      front, a trailing dot a 0 after it. */
  function Padded(num: string): string {
    var a := if |num| > 0 && num[0] == '.' then "0" + num else num;
    if |a| > 0 && a[|a| - 1] == '.' then a + "0" else a
  }

  /** The digits-and-dots run read_number consumes from `start`. */
  function NumberRun(s: string, start: nat): string {
    if start < |s| then s[start..RunEnd(s, start)] else []
  }

  /** What read_number(s, start) returns or raises: the maximal run of digits and
      dots, FLOAT exactly when it holds a dot, together with the index just past
      it; a ValueError at the run's second dot when it has two or more. */
  function ReadNumberResult(s: string, start: nat): Result<(string, nat, TokenKind), LexError> {
    var run := NumberRun(s, start);
    if multiset(run)['.'] >= 2 then Err(SecondDot(start + DotIndex(run, 1)))
    else Ok((Padded(run), RunEnd(s, start), if '.' in run then FLOAT else INT))
  }

  method ReadNumber(equation: string, start: nat) returns (r: Result<(string, nat, TokenKind), LexError>)
    ensures r == ReadNumberResult(equation, start)
  {
    var i := start;
    var n := |equation|;
    var num := "";
    var hasDot := false;
    ghost var run := NumberRun(equation, start);
    ghost var e := RunEnd(equation, start);
    RunShape(equation, start);
    while i < n && (IsDigit(equation[i]) || equation[i] == '.')
      invariant start <= i <= e
      invariant num == run[..i - start]
      invariant multiset(num)['.'] == if hasDot then 1 else 0
      decreases n - i
    {
      RunChar(equation, start, i);
      CountStep(run, i - start);
      if equation[i] == '.' {
        if hasDot {
          SecondDotAt(equation, start, i);
          return Err(SecondDot(i));
        }
        hasDot := true;
      }
      num := num + [equation[i]];
      i := i + 1;
    }
    RunStop(equation, start, i);
    num := Padded(num);
    var kind := if hasDot then FLOAT else INT;
    ReadNumberOk(equation, start, hasDot);
    return Ok((num, i, kind));
  }

  lemma ReadNumberOk(s: string, start: nat, hasDot: bool)
    requires multiset(NumberRun(s, start))['.'] == if hasDot then 1 else 0
    ensures ReadNumberResult(s, start)
         == Ok((Padded(NumberRun(s, start)), RunEnd(s, start), if hasDot then FLOAT else INT))
  {
  }

  lemma RunShape(s: string, start: nat)
    ensures |NumberRun(s, start)| == RunEnd(s, start) - start
  {
  }

  /** Inside the run, the run's characters are the equation's. */
  lemma RunChar(s: string, start: nat, k: nat)
    requires start <= k < RunEnd(s, start)
    ensures k < |s| && k - start < |NumberRun(s, start)|
    ensures NumberRun(s, start)[..k + 1 - start] == NumberRun(s, start)[..k - start] + [s[k]]
  {
    var run := NumberRun(s, start);
    assert run[k - start] == s[k];
    assert run[..k + 1 - start] == run[..k - start] + [run[k - start]];
  }

  /** read_number's loop leaves off exactly at the end of the run. */
  lemma RunStop(s: string, start: nat, i: nat)
    requires start <= i <= RunEnd(s, start)
    requires !(i < |s| && IsNumberChar(s[i]))
    ensures i == RunEnd(s, start)
    ensures NumberRun(s, start)[..i - start] == NumberRun(s, start)
  {
    RunShape(s, start);
  }

  lemma CountStep(s: string, a: nat)
    ensures a < |s| ==> multiset(s[..a + 1])['.'] == multiset(s[..a])['.'] + (if s[a] == '.' then 1 else 0)
  {
    if a < |s| {
      assert s[..a + 1] == s[..a] + [s[a]];
    }
  }

  lemma CountSplit(s: string, a: nat, b: nat)
    ensures a <= b <= |s| ==> multiset(s[..b])['.'] == multiset(s[..a])['.'] + multiset(s[a..b])['.']
  {
    if a <= b <= |s| {
      assert s[..b] == s[..a] + s[a..b];
    }
  }

  /** The dot read_number stops at is the second dot of the run. */
  lemma SecondDotAt(s: string, start: nat, i: nat)
    requires start <= i < |s| && s[i] == '.'
    requires i - start < |NumberRun(s, start)|
    requires multiset(NumberRun(s, start)[..i - start])['.'] == 1
    ensures multiset(NumberRun(s, start))['.'] >= 2
    ensures start + DotIndex(NumberRun(s, start), 1) == i
  {
    var run := NumberRun(s, start);
    assert run[i - start] == '.';
    SecondDotIn(run, i - start);
  }

  lemma SecondDotIn(run: string, k: nat)
    requires k < |run| && run[k] == '.'
    requires multiset(run[..k])['.'] == 1
    ensures multiset(run)['.'] >= 2
    ensures DotIndex(run, 1) == k
  {
    var d := DotIndex(run, 1);
    CountStep(run, k);
    CountSplit(run, k + 1, |run|);
    CountStep(run, d);
    CountSplit(run, d + 1, k);
    CountSplit(run, k + 1, d);
    assert run[..|run|] == run;
  }

  // ---------------------------------------------------------------------------
  // lexical_walk

  /** End of the run of letters, digits and underscores from `k` (an identifier's tail). */
  function IdentEnd(s: string, k: nat): (e: nat)
    ensures k <= e
    ensures k <= |s| ==> e <= |s|
    ensures forall j :: k <= j < e ==> j < |s| && IsWordChar(s[j])
    ensures e >= |s| || !IsWordChar(s[e])
    decreases |s| - k
  {
    if k < |s| && IsWordChar(s[k]) then IdentEnd(s, k + 1) else k
  }

  predicate IsPunctuation(c: char) { c in "+-*/=()" }

  function PunctuationKind(c: char): TokenKind {
    if c == '=' then ASSIGN else if c == '(' then LPAREN else if c == ')' then RPAREN else OPERATOR
  }

  /** `pi` in any letter case is the constant 3.14; any other name is an identifier. */
  function NameToken(ident: string): Token {
    if Lower(ident) == "pi" then Token(FLOAT, "3.14") else Token(IDENTIFIER, ident)
  }

  function Prepend(t: Token, r: Result<seq<Token>, LexError>): Result<seq<Token>, LexError> {
    match r
    case Ok(ts) => Ok([t] + ts)
    case Err(e) => Err(e)
  }

  function PrependAll(ts: seq<Token>, r: Result<seq<Token>, LexError>): Result<seq<Token>, LexError> {
    match r
    case Ok(us) => Ok(ts + us)
    case Err(e) => Err(e)
  }

  /** The tokens lexical_walk produces from position `i` of `s` on, or the first
      error it raises there. */
  function Scan(s: string, i: nat): Result<seq<Token>, LexError>
    decreases |s| - i
  {
    if i >= |s| then Ok([])
    else
      var ch := s[i];
      if IsSpace(ch) then Scan(s, i + 1)
      else if IsDigit(ch) || (ch == '.' && i + 1 < |s| && IsDigit(s[i + 1])) then
        match ReadNumberResult(s, i)
        case Err(e) => Err(e)
        case Ok((num, j, kind)) =>
          if j < |s| && (IsLetter(s[j]) || s[j] == '_') then Err(LetterAfterNumber(s[j], num))
          else
            assert j > i by { RunAdvances(s, i); }
            Prepend(Token(kind, num), Scan(s, j))
      else if IsLetter(ch) || ch == '_' then
        var j := IdentEnd(s, i + 1);
        if j < |s| && s[j] == '.' then Err(DotAfterIdentifier(s[i..j]))
        else Prepend(NameToken(s[i..j]), Scan(s, j))
      else if IsPunctuation(ch) then Prepend(Token(PunctuationKind(ch), [ch]), Scan(s, i + 1))
      else Err(InvalidCharacter(ch, i))
  }

  lemma RunAdvances(s: string, i: nat)
    requires i < |s|
    requires IsDigit(s[i]) || (s[i] == '.' && i + 1 < |s| && IsDigit(s[i + 1]))
    ensures RunEnd(s, i) > i
  {
  }

  /** The ID<n> table after the identifiers of `ts`, with the next counter value:
      a name not yet in the table gets ID<counter> and advances the counter. */
  function IdTable(ts: seq<Token>): (map<string, string>, nat)
    decreases |ts|
  {
    if ts == [] then (map[], 1)
    else
      var (m, counter) := IdTable(ts[..|ts| - 1]);
      var t := ts[|ts| - 1];
      if t.kind == IDENTIFIER && t.value !in m then (m[t.value := "ID" + NatToString(counter)], counter + 1)
      else (m, counter)
  }

  method LexicalWalk(equation: string) returns (r: Result<(seq<Token>, map<string, string>), LexError>)
    ensures Scan(equation, 0).Err? ==> r == Err(Scan(equation, 0).error)
    ensures Scan(equation, 0).Ok? ==> r == Ok((Scan(equation, 0).value, IdTable(Scan(equation, 0).value).0))
  {
    var i := 0;
    var n := |equation|;
    var idCounter := 1;
    var tokens: seq<Token> := [];
    var idMap: map<string, string> := map[];
    PrependNone(Scan(equation, 0));
    while i < n
      invariant i <= n
      invariant Scan(equation, 0) == PrependAll(tokens, Scan(equation, i))
      invariant (idMap, idCounter) == IdTable(tokens)
      decreases n - i
    {
      var ch := equation[i];
      if IsSpace(ch) {
        ScanSpace(equation, i);
        i := i + 1;
      } else if IsDigit(ch) || (ch == '.' && i + 1 < n && IsDigit(equation[i + 1])) {
        var failure;
        failure, tokens, i := LexNumber(equation, i, tokens, idMap, idCounter);
        if failure.Some? {
          return Err(failure.value);
        }
      } else if IsLetter(ch) || ch == '_' {
        var failure;
        failure, tokens, idMap, idCounter, i := LexName(equation, i, tokens, idMap, idCounter);
        if failure.Some? {
          return Err(failure.value);
        }
      } else if IsPunctuation(ch) {
        ScanPunctuation(equation, i);
        var tok := Token(PunctuationKind(ch), [ch]);
        Advance(equation, tokens, i, tok, i + 1, idMap, idCounter);
        tokens := tokens + [tok];
        i := i + 1;
      } else {
        ScanInvalid(equation, i);
        return Err(InvalidCharacter(ch, i));
      }
    }
    PrependEnd(tokens, equation, i);
    return Ok((tokens, idMap));
  }

  /** The number branch of lexical_walk: read the number at `i` and append
      its token, or fail with the error the scan raises there. */
  method LexNumber(equation: string, i: nat, tokens: seq<Token>, ghost idMap: map<string, string>, ghost idCounter: nat)
    returns (failure: Option<LexError>, tokens': seq<Token>, j: nat)
    requires i < |equation| && (IsDigit(equation[i]) || (equation[i] == '.' && i + 1 < |equation| && IsDigit(equation[i + 1])))
    requires Scan(equation, 0) == PrependAll(tokens, Scan(equation, i))
    requires (idMap, idCounter) == IdTable(tokens)
    ensures failure.Some? ==> Scan(equation, 0) == Err(failure.value)
    ensures failure.None? ==> i < j <= |equation| && Scan(equation, 0) == PrependAll(tokens', Scan(equation, j))
    ensures failure.None? ==> (idMap, idCounter) == IdTable(tokens')
  {
    ScanNumber(equation, i);
    var read := ReadNumber(equation, i);
    if read.Err? {
      return Some(read.error), tokens, i;
    }
    var num, kind;
    num, j, kind := read.value.0, read.value.1, read.value.2;
    if j < |equation| && (IsLetter(equation[j]) || equation[j] == '_') {
      return Some(LetterAfterNumber(equation[j], num)), tokens, j;
    }
    assert j == RunEnd(equation, i);
    Advance(equation, tokens, i, Token(kind, num), j, idMap, idCounter);
    return None, tokens + [Token(kind, num)], j;
  }

  /** The name branch of lexical_walk: read the identifier at `i`, append
      its token and number it if new, or fail on a dot right after it. */
  method LexName(equation: string, i: nat, tokens: seq<Token>, idMap: map<string, string>, idCounter: nat)
    returns (failure: Option<LexError>, tokens': seq<Token>, idMap': map<string, string>, idCounter': nat, j: nat)
    requires i < |equation| && (IsLetter(equation[i]) || equation[i] == '_')
    requires Scan(equation, 0) == PrependAll(tokens, Scan(equation, i))
    requires (idMap, idCounter) == IdTable(tokens)
    ensures failure.Some? ==> Scan(equation, 0) == Err(failure.value)
    ensures failure.None? ==> i < j <= |equation| && Scan(equation, 0) == PrependAll(tokens', Scan(equation, j))
    ensures failure.None? ==> (idMap', idCounter') == IdTable(tokens')
  {
    ScanName(equation, i);
    j := ReadIdentifier(equation, i);
    var ident := equation[i..j];
    if j < |equation| && equation[j] == '.' {
      return Some(DotAfterIdentifier(ident)), tokens, idMap, idCounter, j;
    }
    Advance(equation, tokens, i, NameToken(ident), j, idMap, idCounter);
    failure, idMap', idCounter' := None, idMap, idCounter;
    if Lower(ident) == "pi" {
      tokens' := tokens + [Token(FLOAT, "3.14")];
    } else {
      tokens' := tokens + [Token(IDENTIFIER, ident)];
      if ident !in idMap {
        idMap' := idMap[ident := "ID" + NatToString(idCounter)];
        idCounter' := idCounter + 1;
      }
    }
  }

  /** The identifier loop of lexical_walk: from the letter or underscore at
      `start`, it takes letters, digits and underscores. */
  method ReadIdentifier(equation: string, start: nat) returns (i: nat)
    requires start < |equation|
    ensures i == IdentEnd(equation, start + 1)
  {
    var n := |equation|;
    i := start + 1;
    while i < n && (IsAlnum(equation[i]) || equation[i] == '_')
      invariant start < i <= n
      invariant IdentEnd(equation, i) == IdentEnd(equation, start + 1)
      decreases n - i
    {
      i := i + 1;
    }
  }

  lemma PrependNone(r: Result<seq<Token>, LexError>)
    ensures PrependAll([], r) == r
  {
    if r.Ok? {
      assert [] + r.value == r.value;
    }
  }

  lemma PrependEnd(ts: seq<Token>, s: string, i: nat)
    requires i >= |s|
    ensures PrependAll(ts, Scan(s, i)) == Ok(ts)
  {
    assert ts + [] == ts;
  }

  lemma ScanSpace(s: string, i: nat)
    requires i < |s| && IsSpace(s[i])
    ensures Scan(s, i) == Scan(s, i + 1)
  {
  }

  lemma ScanNumber(s: string, i: nat)
    requires i < |s| && (IsDigit(s[i]) || (s[i] == '.' && i + 1 < |s| && IsDigit(s[i + 1])))
    ensures ReadNumberResult(s, i).Err? ==> Scan(s, i) == Err(ReadNumberResult(s, i).error)
    ensures ReadNumberResult(s, i).Ok? ==> ReadNumberResult(s, i).value.1 > i
    ensures ReadNumberResult(s, i).Ok? ==>
      var (num, j, kind) := ReadNumberResult(s, i).value;
      if j < |s| && (IsLetter(s[j]) || s[j] == '_') then Scan(s, i) == Err(LetterAfterNumber(s[j], num))
      else Scan(s, i) == Prepend(Token(kind, num), Scan(s, j))
  {
  }

  lemma ScanName(s: string, i: nat)
    requires i < |s| && (IsLetter(s[i]) || s[i] == '_')
    ensures var j := IdentEnd(s, i + 1);
      if j < |s| && s[j] == '.' then Scan(s, i) == Err(DotAfterIdentifier(s[i..j]))
      else Scan(s, i) == Prepend(NameToken(s[i..j]), Scan(s, j))
  {
  }

  lemma ScanPunctuation(s: string, i: nat)
    requires i < |s| && IsPunctuation(s[i])
    ensures Scan(s, i) == Prepend(Token(PunctuationKind(s[i]), [s[i]]), Scan(s, i + 1))
  {
  }

  lemma ScanInvalid(s: string, i: nat)
    requires i < |s| && !IsSpace(s[i]) && !IsDigit(s[i]) && !IsLetter(s[i]) && s[i] != '_' && !IsPunctuation(s[i])
    requires !(s[i] == '.' && i + 1 < |s| && IsDigit(s[i + 1]))
    ensures Scan(s, i) == Err(InvalidCharacter(s[i], i))
  {
  }

  lemma IdTableAppend(ts: seq<Token>, t: Token, m: map<string, string>, counter: nat)
    requires (m, counter) == IdTable(ts)
    ensures IdTable(ts + [t]) ==
      if t.kind == IDENTIFIER && t.value !in m then (m[t.value := "ID" + NatToString(counter)], counter + 1)
      else (m, counter)
  {
    assert (ts + [t])[..|ts + [t]| - 1] == ts;
  }

  /** One token of lexical_walk: the invariant moves from `i` to `j`. */
  lemma Advance(s: string, tokens: seq<Token>, i: nat, t: Token, j: nat, m: map<string, string>, c: nat)
    requires Scan(s, 0) == PrependAll(tokens, Scan(s, i))
    requires (m, c) == IdTable(tokens)
    requires Scan(s, i) == Prepend(t, Scan(s, j))
    ensures Scan(s, 0) == PrependAll(tokens + [t], Scan(s, j))
    ensures IdTable(tokens + [t]) ==
      if t.kind == IDENTIFIER && t.value !in m then (m[t.value := "ID" + NatToString(c)], c + 1)
      else (m, c)
  {
    AppendToken(tokens, t, Scan(s, j));
    IdTableAppend(tokens, t, m, c);
  }

  lemma AppendToken(ts: seq<Token>, t: Token, rest: Result<seq<Token>, LexError>)
    ensures PrependAll(ts, Prepend(t, rest)) == PrependAll(ts + [t], rest)
  {
    if rest.Ok? {
      assert ts + ([t] + rest.value) == (ts + [t]) + rest.value;
    }
  }

  // ---------------------------------------------------------------------------
  // What read_number promises

  /** The padding adds a 0 before a leading dot and after a trailing dot and
      nothing else, so a padded number neither starts nor ends with a dot and
      keeps its dots. */
  lemma PaddedShape(num: string)
    ensures Padded(num)
         == (if |num| > 0 && num[0] == '.' then "0" else "") + num
            + (if |num| > 0 && num[|num| - 1] == '.' then "0" else "")
    ensures |num| > 0 ==> Padded(num)[0] != '.' && Padded(num)[|Padded(num)| - 1] != '.'
    ensures multiset(Padded(num))['.'] == multiset(num)['.']
    ensures (forall k :: 0 <= k < |num| ==> IsNumberChar(num[k])) ==>
              forall k :: 0 <= k < |Padded(num)| ==> IsNumberChar(Padded(num)[k])
  {
    var pre := if |num| > 0 && num[0] == '.' then "0" else "";
    var post := if |num| > 0 && num[|num| - 1] == '.' then "0" else "";
    PaddedParts(num, pre, post);
    PadFacts(num, pre, post);
  }

  lemma PaddedParts(num: string, pre: string, post: string)
    requires pre == if |num| > 0 && num[0] == '.' then "0" else ""
    requires post == if |num| > 0 && num[|num| - 1] == '.' then "0" else ""
    ensures Padded(num) == pre + num + post
  {
    var a := if |num| > 0 && num[0] == '.' then "0" + num else num;
    assert a == pre + num;
    if |num| > 0 {
      assert a[|a| - 1] == num[|num| - 1];
    }
  }

  /** The padded text, written as its three parts. */
  lemma PadFacts(num: string, pre: string, post: string)
    requires pre == if |num| > 0 && num[0] == '.' then "0" else ""
    requires post == if |num| > 0 && num[|num| - 1] == '.' then "0" else ""
    ensures var w := pre + num + post;
      && (|num| > 0 ==> w[0] != '.' && w[|w| - 1] != '.')
      && multiset(w)['.'] == multiset(num)['.']
      && ((forall k :: 0 <= k < |num| ==> IsNumberChar(num[k])) ==> forall k :: 0 <= k < |w| ==> IsNumberChar(w[k]))
  {
    var w := pre + num + post;
    assert multiset(w) == multiset(pre) + multiset(num) + multiset(post);
    if forall k :: 0 <= k < |num| ==> IsNumberChar(num[k]) {
      forall k | 0 <= k < |w| ensures IsNumberChar(w[k]) {
        if k < |pre| {
          assert w[k] == '0';
        } else if k < |pre| + |num| {
          assert w[k] == num[k - |pre|];
        } else {
          assert w[k] == '0';
        }
      }
    }
  }

  /** read_number succeeds exactly when the run has at most one dot. It then
      returns the index just past the maximal run of digits and dots, FLOAT
      exactly when that run holds a dot, and the run with its padding; when it
      fails, it names the run's second dot. */
  lemma ReadNumberMeaning(s: string, start: nat)
    requires start < |s|
    ensures ReadNumberResult(s, start).Ok? <==> multiset(s[start..RunEnd(s, start)])['.'] <= 1
    ensures ReadNumberResult(s, start).Ok? ==>
      var (num, j, kind) := ReadNumberResult(s, start).value;
      && start <= j <= |s|
      && (forall k :: start <= k < j ==> IsNumberChar(s[k]))
      && (j == |s| || !IsNumberChar(s[j]))
      && (kind == FLOAT <==> '.' in s[start..j])
      && num == Padded(s[start..j])
    ensures ReadNumberResult(s, start).Err? ==>
      var p := ReadNumberResult(s, start).error.pos;
      && ReadNumberResult(s, start).error.SecondDot?
      && start < p < RunEnd(s, start) && s[p] == '.'
      && multiset(s[start..p])['.'] == 1
  {
    var run := NumberRun(s, start);
    var e := RunEnd(s, start);
    if multiset(run)['.'] >= 2 {
      var d := DotIndex(run, 1);
      assert d < |run|;
      assert run[..d] == s[start..start + d];
      assert run[d] == s[start + d];
    }
  }

  // ---------------------------------------------------------------------------
  // What lexical_walk promises about its tokens

  /** The text each kind of token can carry. */
  predicate WellFormed(t: Token) {
    var v := t.value;
    match t.kind
    case IDENTIFIER =>
      |v| > 0 && (IsLetter(v[0]) || v[0] == '_') && (forall k :: 0 <= k < |v| ==> IsWordChar(v[k]))
      && Lower(v) != "pi"
    case INT => |v| > 0 && AllDigits(v)
    case FLOAT =>
      |v| > 0 && v[0] != '.' && v[|v| - 1] != '.' && multiset(v)['.'] == 1
      && forall k :: 0 <= k < |v| ==> IsNumberChar(v[k])
    case ASSIGN => v == "="
    case LPAREN => v == "("
    case RPAREN => v == ")"
    case OPERATOR => |v| == 1 && v[0] in "+-*/"
  }

  lemma NumberTokenWellFormed(s: string, i: nat)
    requires i < |s| && (IsDigit(s[i]) || (s[i] == '.' && i + 1 < |s| && IsDigit(s[i + 1])))
    requires ReadNumberResult(s, i).Ok?
    ensures WellFormed(Token(ReadNumberResult(s, i).value.2, ReadNumberResult(s, i).value.0))
  {
    var run := NumberRun(s, i);
    RunAdvances(s, i);
    assert forall k :: 0 <= k < |run| ==> IsNumberChar(run[k]) by {
      forall k | 0 <= k < |run| ensures IsNumberChar(run[k]) {
        assert run[k] == s[i + k];
      }
    }
    RunWellFormed(run);
  }

  lemma RunWellFormed(run: string)
    requires |run| > 0 && multiset(run)['.'] <= 1
    requires forall k :: 0 <= k < |run| ==> IsNumberChar(run[k])
    ensures WellFormed(Token(if '.' in run then FLOAT else INT, Padded(run)))
  {
    if '.' !in run {
      IntRunWellFormed(run);
    } else {
      FloatRunWellFormed(run);
    }
  }

  lemma IntRunWellFormed(run: string)
    requires |run| > 0 && '.' !in run
    requires forall k :: 0 <= k < |run| ==> IsNumberChar(run[k])
    ensures WellFormed(Token(INT, Padded(run)))
  {
    assert run[0] != '.' && run[|run| - 1] != '.';
    assert Padded(run) == run;
    forall k | 0 <= k < |run| ensures IsDigit(run[k]) {
      assert run[k] != '.';
    }
  }

  lemma FloatRunWellFormed(run: string)
    requires |run| > 0 && multiset(run)['.'] <= 1 && '.' in run
    requires forall k :: 0 <= k < |run| ==> IsNumberChar(run[k])
    ensures WellFormed(Token(FLOAT, Padded(run)))
  {
    PaddedShape(run);
    assert multiset(run)['.'] >= 1;
  }

  lemma NameTokenWellFormed(s: string, i: nat)
    requires i < |s| && (IsLetter(s[i]) || s[i] == '_')
    ensures WellFormed(NameToken(s[i..IdentEnd(s, i + 1)]))
  {
    var v := s[i..IdentEnd(s, i + 1)];
    assert v[0] == s[i];
    forall k | 0 <= k < |v| ensures IsWordChar(v[k]) {
      assert v[k] == s[i + k];
    }
    NameTextWellFormed(v);
  }

  lemma NameTextWellFormed(v: string)
    requires |v| > 0 && (IsLetter(v[0]) || v[0] == '_')
    requires forall k :: 0 <= k < |v| ==> IsWordChar(v[k])
    ensures WellFormed(NameToken(v))
  {
    if Lower(v) == "pi" {
      assert multiset("3.14")['.'] == 1;
    }
  }

  /** Every token lexical_walk produces is well formed for its kind: names are
      words other than `pi`, INT is a digit string, FLOAT a numeral with one dot
      inside it, and each punctuation token is its own character. */
  lemma {:induction false} ScanWellFormed(s: string, i: nat)
    ensures Scan(s, i).Ok? ==> forall t :: t in Scan(s, i).value ==> WellFormed(t)
    decreases |s| - i
  {
    if i < |s| {
      var ch := s[i];
      if IsSpace(ch) {
        ScanSpace(s, i);
        ScanWellFormed(s, i + 1);
      } else if IsDigit(ch) || (ch == '.' && i + 1 < |s| && IsDigit(s[i + 1])) {
        ScanNumber(s, i);
        if ReadNumberResult(s, i).Ok? {
          var (num, j, kind) := ReadNumberResult(s, i).value;
          if !(j < |s| && (IsLetter(s[j]) || s[j] == '_')) {
            NumberTokenWellFormed(s, i);
            ScanWellFormed(s, j);
            PrependWellFormed(Token(kind, num), Scan(s, j));
          }
        }
      } else if IsLetter(ch) || ch == '_' {
        ScanName(s, i);
        var j := IdentEnd(s, i + 1);
        if !(j < |s| && s[j] == '.') {
          NameTokenWellFormed(s, i);
          ScanWellFormed(s, j);
          PrependWellFormed(NameToken(s[i..j]), Scan(s, j));
        }
      } else if IsPunctuation(ch) {
        ScanPunctuation(s, i);
        ScanWellFormed(s, i + 1);
        PunctuationWellFormed(ch);
        PrependWellFormed(Token(PunctuationKind(ch), [ch]), Scan(s, i + 1));
      } else {
        ScanInvalid(s, i);
      }
    }
  }

  lemma PrependWellFormed(t: Token, r: Result<seq<Token>, LexError>)
    requires WellFormed(t)
    requires r.Ok? ==> forall u :: u in r.value ==> WellFormed(u)
    ensures Prepend(t, r).Ok? ==> forall u :: u in Prepend(t, r).value ==> WellFormed(u)
  {
  }

  lemma PunctuationWellFormed(c: char)
    requires IsPunctuation(c)
    ensures WellFormed(Token(PunctuationKind(c), [c]))
  {
  }

  /** White space yields no token: a run of it is skipped as a whole. */
  lemma {:induction false} ScanSkipsSpaces(s: string, i: nat, k: nat)
    requires i <= k <= |s| && AllSpaces(s[i..k])
    ensures Scan(s, i) == Scan(s, k)
    decreases k - i
  {
    if i < k {
      assert IsSpace(s[i..k][0]);
      assert s[i + 1..k] == s[i..k][1..];
      ScanSkipsSpaces(s, i + 1, k);
    }
  }

  // ---------------------------------------------------------------------------
  // What lexical_walk promises about id_map

  /** The identifier names of `ts`, each once, in the order of first occurrence. */
  function Distinct(ts: seq<Token>): (d: seq<string>)
    decreases |ts|
  {
    if ts == [] then []
    else
      var d := Distinct(ts[..|ts| - 1]);
      var t := ts[|ts| - 1];
      if t.kind == IDENTIFIER && t.value !in d then d + [t.value] else d
  }

  function IdName(n: nat): string { "ID" + NatToString(n) }

  /** id_map holds exactly the identifier names, numbered ID1, ID2, ... in the
      order they first occur; the counter is one past the last number given, so
      repeats do not advance it. */
  lemma {:induction false} IdTableNumbering(ts: seq<Token>)
    ensures IdTable(ts).1 == |Distinct(ts)| + 1
    ensures forall x :: x in IdTable(ts).0 <==> x in Distinct(ts)
    ensures forall k :: 0 <= k < |Distinct(ts)| ==> IdTable(ts).0[Distinct(ts)[k]] == IdName(k + 1)
    ensures forall a, b :: 0 <= a < b < |Distinct(ts)| ==> Distinct(ts)[a] != Distinct(ts)[b]
    decreases |ts|
  {
    if ts != [] {
      IdTableNumbering(ts[..|ts| - 1]);
    }
  }

  /** A name is in the table exactly when some identifier token carries it. */
  lemma {:induction false} DistinctNames(ts: seq<Token>)
    ensures forall x :: x in Distinct(ts) <==> Token(IDENTIFIER, x) in ts
    decreases |ts|
  {
    if ts != [] {
      var init := ts[..|ts| - 1];
      DistinctNames(init);
      assert ts == init + [ts[|ts| - 1]];
    }
  }

  /** No two identifiers share an ID name. */
  lemma IdNamesInjective(ts: seq<Token>)
    ensures forall x, y :: x in IdTable(ts).0 && y in IdTable(ts).0 && IdTable(ts).0[x] == IdTable(ts).0[y] ==> x == y
  {
    IdTableNumbering(ts);
    var d := Distinct(ts);
    var m := IdTable(ts).0;
    forall x, y | x in m && y in m && m[x] == m[y] ensures x == y {
      var a :| 0 <= a < |d| && d[a] == x;
      var b :| 0 <= b < |d| && d[b] == y;
      assert IdName(a + 1)[2..] == NatToString(a + 1);
      assert IdName(b + 1)[2..] == NatToString(b + 1);
      NatToStringInjective(a + 1, b + 1);
    }
  }

  /** The id_map lexical_walk returns: its keys are exactly the identifiers of
      the token list, `pi` in any case is never one of them, and two names never
      share an ID. */
  lemma LexIdMap(s: string)
    requires Scan(s, 0).Ok?
    ensures var ts := Scan(s, 0).value;
      && (forall x :: x in IdTable(ts).0 <==> Token(IDENTIFIER, x) in ts)
      && (forall x :: x in IdTable(ts).0 ==> Lower(x) != "pi")
      && (forall x, y :: x in IdTable(ts).0 && y in IdTable(ts).0 && IdTable(ts).0[x] == IdTable(ts).0[y] ==> x == y)
  {
    var ts := Scan(s, 0).value;
    IdTableNumbering(ts);
    DistinctNames(ts);
    ScanWellFormed(s, 0);
    IdNamesInjective(ts);
    forall x | x in IdTable(ts).0 ensures Lower(x) != "pi" {
      assert WellFormed(Token(IDENTIFIER, x));
    }
  }
}
