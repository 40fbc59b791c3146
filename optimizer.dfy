/** optimize_code of Compiler/optimization/optimizer.py: a pass over the
    three-address lines that inlines temporaries holding operator-free text,
    emits the rest and folds `x = tempN` into the line that computed tempN,
    then a pass that renumbers the temporaries defined on a left-hand side. */
module Optimizer {
  import opened Wrappers
  import opened Strings
  import Icg

  // ---------------------------------------------------------------------------
  // Reading one line

  /** The text before the first `=` (`instr.split('=', 1)[0]`). */
  function BeforeEquals(line: string): (r: string)
    requires '=' in line
    ensures '=' !in r
    ensures line == r + "=" + AfterEquals(line)
  {
    line[..IndexOf(line, '=')]
  }

  /** The text after the first `=`. */
  function AfterEquals(line: string): string
    requires '=' in line
  {
    line[IndexOf(line, '=') + 1..]
  }

  /** Both sides of an assignment line, stripped. */
  function SplitAssign(line: string): (string, string)
    requires '=' in line
  {
    (Strip(BeforeEquals(line)), Strip(AfterEquals(line)))
  }

  /** How the optimizer writes a line back: `f"{lhs} = {rhs}"`. */
  function AssignLine(lhs: string, rhs: string): string {
    lhs + " = " + rhs
  }

  /** In a written-back line the first `=` is the one the writing put there,
      when the left side holds none. */
  lemma EqualsAt(t: string, e: string)
    requires '=' !in t
    ensures '=' in AssignLine(t, e)
    ensures IndexOf(AssignLine(t, e), '=') == |t| + 1
    ensures BeforeEquals(AssignLine(t, e)) == t + " "
    ensures AfterEquals(AssignLine(t, e)) == " " + e
  {
    var line := AssignLine(t, e);
    assert line[|t| + 1] == '=';
    forall k | 0 <= k < |t| + 1 ensures line[k] != '=' {
      if k < |t| {
        assert line[k] == t[k];
      }
    }
    assert line[..|t| + 1] == t + " ";
    assert line[|t| + 2..] == " " + e;
  }

  /** Splitting a written-back line gives back its two sides, when the left
      side holds no `=` and neither side has white space at its ends. */
  lemma SplitAssignLine(lhs: string, rhs: string)
    requires '=' !in lhs && Trimmed(lhs) && Trimmed(rhs)
    ensures '=' in AssignLine(lhs, rhs)
    ensures SplitAssign(AssignLine(lhs, rhs)) == (lhs, rhs)
  {
    EqualsAt(lhs, rhs);
    StripPadded("", lhs, " ");
    assert "" + lhs + " " == lhs + " ";
    StripPadded(" ", rhs, "");
    assert " " + rhs + "" == " " + rhs;
  }

  /** is_complex: the text holds one of the four binary operators. */
  predicate IsComplex(e: string) {
    '+' in e || '-' in e || '*' in e || '/' in e
  }

  /** The number of binary operator characters in a text. */
  function OpCount(s: string): nat {
    multiset(s)['+'] + multiset(s)['-'] + multiset(s)['*'] + multiset(s)['/']
  }

  lemma ComplexOps(e: string)
    ensures IsComplex(e) <==> OpCount(e) > 0
  {
  }

  // ---------------------------------------------------------------------------
  // The first pass

  /** `last_complex_instr`: where the last operator-bearing temporary line was
      emitted, and the temporary it defines. */
  datatype Candidate = Candidate(index: nat, temp: string)

  /** The state of the first loop. `origin[k]` is the position in the input of
      the line that put `out[k]` in place. */
  datatype Pass = Pass(definitions: map<string, string>, out: seq<string>, origin: seq<nat>, last: Option<Candidate>)

  /** A candidate always points at the last line emitted, which is an
      assignment. */
  predicate Valid(p: Pass) {
    && |p.origin| == |p.out|
    && (p.last.Some? ==> p.last.value.index + 1 == |p.out| && '=' in p.out[p.last.value.index])
  }

  /** Nothing stored for inlining holds an operator. */
  predicate DefinitionsSimple(defs: map<string, string>) {
    forall t :: t in defs ==> OpCount(defs[t]) == 0
  }

  /** Each emitted line comes from a later input line than the one before it,
      and from one of the first `n`. */
  predicate OriginsOrdered(origin: seq<nat>, n: nat) {
    && (forall a, b :: 0 <= a < b < |origin| ==> origin[a] < origin[b])
    && (forall a :: 0 <= a < |origin| ==> origin[a] < n)
  }

  /** The body of the first loop for the `n`-th line (counting from 0). */
  function Step(p: Pass, line: string, n: nat): Pass
    requires Valid(p)
  {
    if '=' !in line then Pass(p.definitions, p.out + [line], p.origin + [n], None)
    else
      var lhs := SplitAssign(line).0;
      var newRhs := Substitute(SplitAssign(line).1, p.definitions, Identifier);
      if StartsWith(lhs, "temp") then TempStep(p, lhs, newRhs, n)
      else UserStep(p, lhs, newRhs, n)
  }

  /** A temporary's line: operator-free text is stored for inlining, anything
      else is emitted and becomes the candidate. */
  function TempStep(p: Pass, lhs: string, newRhs: string, n: nat): Pass {
    if !IsComplex(newRhs) then p.(definitions := p.definitions[lhs := newRhs])
    else Pass(p.definitions, p.out + [AssignLine(lhs, newRhs)], p.origin + [n], Some(Candidate(|p.out|, lhs)))
  }

  /** A user variable's line: `x = tempN` right after the candidate for tempN
      takes over the candidate's line; anything else is emitted. */
  function UserStep(p: Pass, lhs: string, newRhs: string, n: nat): Pass
    requires Valid(p)
  {
    if p.last.Some? && newRhs == p.last.value.temp then
      var i := p.last.value.index;
      Pass(p.definitions, p.out[i := AssignLine(lhs, Strip(AfterEquals(p.out[i])))], p.origin, None)
    else Pass(p.definitions, p.out + [AssignLine(lhs, newRhs)], p.origin + [n], None)
  }

  /** The first loop after the given lines. */
  function PassOf(lines: seq<string>): (p: Pass)
    ensures Valid(p) && DefinitionsSimple(p.definitions) && OriginsOrdered(p.origin, |lines|)
    decreases |lines|
  {
    if lines == [] then Pass(map[], [], [], None)
    else
      var p := PassOf(lines[..|lines| - 1]);
      var line := lines[|lines| - 1];
      StepKeeps(p, line, |lines| - 1);
      Step(p, line, |lines| - 1)
  }

  lemma EqualsInLine(lhs: string, rhs: string)
    ensures '=' in AssignLine(lhs, rhs)
  {
    assert AssignLine(lhs, rhs)[|lhs| + 1] == '=';
  }

  /** One step keeps the pass valid, stores only operator-free text and
      emits in input order. */
  lemma StepKeeps(p: Pass, line: string, n: nat)
    requires Valid(p) && DefinitionsSimple(p.definitions) && OriginsOrdered(p.origin, n)
    ensures var q := Step(p, line, n);
      Valid(q) && DefinitionsSimple(q.definitions) && OriginsOrdered(q.origin, n + 1)
  {
    if '=' in line {
      var lhs := SplitAssign(line).0;
      var newRhs := Substitute(SplitAssign(line).1, p.definitions, Identifier);
      if StartsWith(lhs, "temp") {
        TempStepKeeps(p, lhs, newRhs, n);
      } else {
        UserStepKeeps(p, lhs, newRhs, n);
      }
    }
  }

  lemma TempStepKeeps(p: Pass, lhs: string, newRhs: string, n: nat)
    requires Valid(p) && DefinitionsSimple(p.definitions) && OriginsOrdered(p.origin, n)
    ensures var q := TempStep(p, lhs, newRhs, n);
      Valid(q) && DefinitionsSimple(q.definitions) && OriginsOrdered(q.origin, n + 1)
  {
    EqualsInLine(lhs, newRhs);
    ComplexOps(newRhs);
  }

  lemma UserStepKeeps(p: Pass, lhs: string, newRhs: string, n: nat)
    requires Valid(p) && DefinitionsSimple(p.definitions) && OriginsOrdered(p.origin, n)
    ensures var q := UserStep(p, lhs, newRhs, n);
      Valid(q) && DefinitionsSimple(q.definitions) && OriginsOrdered(q.origin, n + 1)
  {
  }

  // ---------------------------------------------------------------------------
  // The second pass

  /** The state of the renumbering loop: `temp_map`, `temp_counter` and the
      lines written so far. */
  datatype Renumbering = Renumbering(tempMap: map<string, string>, counter: nat, lines: seq<string>)

  /** The temporary a line defines, if its stripped left side starts with
      `temp`. */
  function DefinedTemp(line: string): (r: Option<string>)
    ensures r.Some? ==> StartsWith(r.value, "temp")
  {
    if '=' in line && StartsWith(SplitAssign(line).0, "temp") then Some(SplitAssign(line).0) else None
  }

  /** The body of the renumbering loop. */
  function RenumberStep(r: Renumbering, line: string): Renumbering {
    var (m, c) := Register(r.tempMap, r.counter, DefinedTemp(line));
    Renumbering(m, c, r.lines + [Substitute(line, m, TempName)])
  }

  /** A temporary defined for the first time takes the next number. */
  function Register(m: map<string, string>, c: nat, d: Option<string>): (map<string, string>, nat) {
    if d.Some? && d.value !in m then (m[d.value := Icg.Temp(c)], c + 1) else (m, c)
  }

  function RenumberOf(lines: seq<string>): (r: Renumbering)
    ensures |r.lines| == |lines|
    decreases |lines|
  {
    if lines == [] then Renumbering(map[], 1, [])
    else RenumberStep(RenumberOf(lines[..|lines| - 1]), lines[|lines| - 1])
  }

  /** optimize_code. */
  function Optimized(lines: seq<string>): seq<string> {
    if lines == [] then [] else RenumberOf(PassOf(lines).out).lines
  }

  // ---------------------------------------------------------------------------
  // The method

  method OptimizeCode(instructions: seq<string>) returns (result: seq<string>)
    ensures result == Optimized(instructions)
  {
    if instructions == [] {
      return [];
    }
    var optimized := InlineAndMerge(instructions);
    result := RenumberTemps(optimized);
  }

  /** The first loop of optimize_code. */
  method InlineAndMerge(instructions: seq<string>) returns (optimized: seq<string>)
    ensures optimized == PassOf(instructions).out
  {
    var definitions: map<string, string> := map[];
    optimized := [];
    var lastComplex: Option<Candidate> := None;
    var i := 0;
    ghost var p := PassOf([]);
    assert instructions[..i] == [];
    while i < |instructions|
      invariant 0 <= i <= |instructions|
      invariant p == PassOf(instructions[..i])
      invariant definitions == p.definitions && optimized == p.out && lastComplex == p.last
    {
      var instr := instructions[i];
      definitions, optimized, lastComplex := InlineOrMergeLine(p, definitions, optimized, lastComplex, instr, i);
      TakeSnoc(instructions, i);
      PassOfSnoc(instructions[..i], instr);
      p := Step(p, instr, i);
      i := i + 1;
    }
    Whole(instructions);
  }

  /** The body of the first loop: one line read against the state `p`. */
  method InlineOrMergeLine(ghost p: Pass, definitions: map<string, string>, optimized: seq<string>,
                           lastComplex: Option<Candidate>, instr: string, ghost n: nat)
    returns (definitions': map<string, string>, optimized': seq<string>, lastComplex': Option<Candidate>)
    requires Valid(p)
    requires definitions == p.definitions && optimized == p.out && lastComplex == p.last
    ensures var q := Step(p, instr, n);
      definitions' == q.definitions && optimized' == q.out && lastComplex' == q.last
  {
    if '=' !in instr {
      return definitions, optimized + [instr], None;
    }
    var lhs := Strip(BeforeEquals(instr));
    var rhs := Strip(AfterEquals(instr));
    var newRhs := Substitute(rhs, definitions, Identifier);
    if StartsWith(lhs, "temp") {
      definitions', optimized', lastComplex' := InlineTemp(p, definitions, optimized, lastComplex, lhs, newRhs, n);
    } else {
      definitions', optimized', lastComplex' := MergeUser(p, definitions, optimized, lastComplex, lhs, newRhs, n);
    }
  }

  /** A line assigning a temporary. */
  method InlineTemp(ghost p: Pass, definitions: map<string, string>, optimized: seq<string>,
                    lastComplex: Option<Candidate>, lhs: string, newRhs: string, ghost n: nat)
    returns (definitions': map<string, string>, optimized': seq<string>, lastComplex': Option<Candidate>)
    requires definitions == p.definitions && optimized == p.out && lastComplex == p.last
    ensures var q := TempStep(p, lhs, newRhs, n);
      definitions' == q.definitions && optimized' == q.out && lastComplex' == q.last
  {
    definitions', optimized', lastComplex' := definitions, optimized, lastComplex;
    if !IsComplex(newRhs) {
      definitions' := definitions[lhs := newRhs];
    } else {
      optimized' := optimized + [lhs + " = " + newRhs];
      lastComplex' := Some(Candidate(|optimized'| - 1, lhs));
    }
  }

  /** A line assigning a user variable: merged into the candidate's line when
      it copies the candidate's temporary. */
  method MergeUser(ghost p: Pass, definitions: map<string, string>, optimized: seq<string>,
                   lastComplex: Option<Candidate>, lhs: string, newRhs: string, ghost n: nat)
    returns (definitions': map<string, string>, optimized': seq<string>, lastComplex': Option<Candidate>)
    requires Valid(p)
    requires definitions == p.definitions && optimized == p.out && lastComplex == p.last
    ensures var q := UserStep(p, lhs, newRhs, n);
      definitions' == q.definitions && optimized' == q.out && lastComplex' == q.last
  {
    definitions', optimized' := definitions, optimized;
    var merged := false;
    if lastComplex.Some? && newRhs == lastComplex.value.temp {
      var prevIdx := lastComplex.value.index;
      var prevInstr := optimized[prevIdx];
      var prevRhs := AfterEquals(prevInstr);
      optimized' := optimized[prevIdx := lhs + " = " + Strip(prevRhs)];
      merged := true;
    }
    if !merged {
      optimized' := optimized + [lhs + " = " + newRhs];
    }
    lastComplex' := None;
  }

  /** The renumbering loop of optimize_code. */
  method RenumberTemps(optimized: seq<string>) returns (finalInstructions: seq<string>)
    ensures finalInstructions == RenumberOf(optimized).lines
  {
    finalInstructions := [];
    var tempMap: map<string, string> := map[];
    var tempCounter: nat := 1;
    var j := 0;
    assert optimized[..j] == [];
    while j < |optimized|
      invariant 0 <= j <= |optimized|
      invariant var r := RenumberOf(optimized[..j]);
        finalInstructions == r.lines && tempMap == r.tempMap && tempCounter == r.counter
    {
      var instr := optimized[j];
      ghost var r := RenumberOf(optimized[..j]);
      PrefixStep(optimized, j);
      assert RenumberOf(optimized[..j + 1]) == RenumberStep(r, instr);
      if '=' in instr {
        var lhs := Strip(BeforeEquals(instr));
        if StartsWith(lhs, "temp") {
          if lhs !in tempMap {
            tempMap := tempMap[lhs := "temp" + NatToString(tempCounter)];
            tempCounter := tempCounter + 1;
          }
        }
      }
      finalInstructions := finalInstructions + [Substitute(instr, tempMap, TempName)];
      j := j + 1;
    }
    Whole(optimized);
  }

  // ---------------------------------------------------------------------------
  // Sequence facts, stated once for any element type

  lemma PrefixStep<T>(s: seq<T>, i: nat)
    requires i < |s|
    ensures s[..i + 1][..i] == s[..i]
  {
  }

  lemma TakeSnoc<T>(s: seq<T>, i: nat)
    requires i < |s|
    ensures s[..i + 1] == s[..i] + [s[i]]
  {
  }

  lemma SplitAt<T>(s: seq<T>, n: nat)
    requires n <= |s|
    ensures s == s[..n] + s[n..]
  {
  }

  lemma Whole<T>(s: seq<T>)
    ensures s[..|s|] == s
  {
  }

  lemma InitOfSnoc<T>(s: seq<T>, x: T)
    ensures (s + [x])[..|s|] == s
  {
  }

  lemma SnocTwo<T>(s: seq<T>, a: T, b: T)
    ensures s + [a, b] == (s + [a]) + [b]
  {
  }

  lemma PrefixOfInit<T>(s: seq<T>, n: nat)
    requires n < |s|
    ensures s[..|s| - 1][..n] == s[..n]
  {
  }

  // ---------------------------------------------------------------------------
  // What the first pass does with one more line

  lemma PassOfSnoc(lines: seq<string>, line: string)
    ensures PassOf(lines + [line]) == Step(PassOf(lines), line, |lines|)
  {
    InitOfSnoc(lines, line);
  }

  /** A line without `=` is copied as it is and clears the candidate. */
  lemma NoAssignCopied(lines: seq<string>, line: string)
    requires '=' !in line
    ensures var p, q := PassOf(lines), PassOf(lines + [line]);
      q.out == p.out + [line] && q.last.None? && q.definitions == p.definitions
  {
    PassOfSnoc(lines, line);
  }

  /** A temporary whose substituted value holds no operator is recorded for
      inlining and not emitted; the candidate stays. */
  lemma SimpleTempRecorded(lines: seq<string>, line: string)
    requires '=' in line && StartsWith(SplitAssign(line).0, "temp")
    requires !IsComplex(Substitute(SplitAssign(line).1, PassOf(lines).definitions, Identifier))
    ensures var p, q := PassOf(lines), PassOf(lines + [line]);
      var newRhs := Substitute(SplitAssign(line).1, p.definitions, Identifier);
      q.out == p.out && q.last == p.last && q.definitions == p.definitions[SplitAssign(line).0 := newRhs]
  {
    PassOfSnoc(lines, line);
  }

  /** A temporary whose substituted value holds an operator is emitted and
      becomes the candidate. */
  lemma ComplexTempEmitted(lines: seq<string>, line: string)
    requires '=' in line && StartsWith(SplitAssign(line).0, "temp")
    requires IsComplex(Substitute(SplitAssign(line).1, PassOf(lines).definitions, Identifier))
    ensures var p, q := PassOf(lines), PassOf(lines + [line]);
      var lhs := SplitAssign(line).0;
      var newRhs := Substitute(SplitAssign(line).1, p.definitions, Identifier);
      && q.out == p.out + [AssignLine(lhs, newRhs)]
      && q.last == Some(Candidate(|p.out|, lhs))
      && q.definitions == p.definitions
  {
    PassOfSnoc(lines, line);
  }

  /** A user variable's line that does not take over the candidate is
      emitted, and the candidate is cleared. */
  lemma UserLineEmitted(lines: seq<string>, line: string)
    requires '=' in line && !StartsWith(SplitAssign(line).0, "temp")
    requires var p := PassOf(lines);
      !(p.last.Some? && Substitute(SplitAssign(line).1, p.definitions, Identifier) == p.last.value.temp)
    ensures var p, q := PassOf(lines), PassOf(lines + [line]);
      var newRhs := Substitute(SplitAssign(line).1, p.definitions, Identifier);
      q.out == p.out + [AssignLine(SplitAssign(line).0, newRhs)] && q.last.None? && q.definitions == p.definitions
  {
    PassOfSnoc(lines, line);
  }

  lemma StripKeepsOut(s: string, c: char)
    requires c !in s
    ensures c !in Strip(s)
  {
    var t := TrimLeft(s);
    assert c !in t by {
      assert t == s[|s| - |t|..];
    }
    assert Strip(s) == t[..|Strip(s)|];
  }

  /** A space in front does not change what strip gives. */
  lemma StripSpaceFront(e: string)
    ensures Strip(" " + e) == Strip(e)
  {
    assert (" " + e)[1..] == e;
  }

  /** The merge: a temporary's operator-bearing line followed by a user
      variable's line whose value is that temporary become one line assigning
      the operation to the variable, in the place of the first. */
  lemma TempMerged(lines: seq<string>, tempLine: string, userLine: string)
    requires '=' in tempLine && StartsWith(SplitAssign(tempLine).0, "temp")
    requires IsComplex(Substitute(SplitAssign(tempLine).1, PassOf(lines).definitions, Identifier))
    requires '=' in userLine && !StartsWith(SplitAssign(userLine).0, "temp")
    requires Substitute(SplitAssign(userLine).1, PassOf(lines).definitions, Identifier) == SplitAssign(tempLine).0
    ensures var p, q := PassOf(lines), PassOf(lines + [tempLine, userLine]);
      var e := Substitute(SplitAssign(tempLine).1, p.definitions, Identifier);
      q.out == p.out + [AssignLine(SplitAssign(userLine).0, Strip(e))] && q.last.None?
  {
    var p := PassOf(lines);
    PassOfSnoc(lines, tempLine);
    SnocTwo(lines, tempLine, userLine);
    PassOfSnoc(lines + [tempLine], userLine);
    MergedSteps(p, |lines|, tempLine, userLine);
  }

  lemma MergedSteps(p: Pass, n: nat, tempLine: string, userLine: string)
    requires Valid(p)
    requires '=' in tempLine && StartsWith(SplitAssign(tempLine).0, "temp")
    requires IsComplex(Substitute(SplitAssign(tempLine).1, p.definitions, Identifier))
    requires '=' in userLine && !StartsWith(SplitAssign(userLine).0, "temp")
    requires Substitute(SplitAssign(userLine).1, p.definitions, Identifier) == SplitAssign(tempLine).0
    ensures var p1 := Step(p, tempLine, n);
      var e := Substitute(SplitAssign(tempLine).1, p.definitions, Identifier);
      && Valid(p1)
      && Step(p1, userLine, n + 1).out == p.out + [AssignLine(SplitAssign(userLine).0, Strip(e))]
      && Step(p1, userLine, n + 1).last.None?
  {
    var t := SplitAssign(tempLine).0;
    var e := Substitute(SplitAssign(tempLine).1, p.definitions, Identifier);
    var x := SplitAssign(userLine).0;
    var p1 := Step(p, tempLine, n);
    assert p1 == TempStep(p, t, e, n);
    assert p1 == Pass(p.definitions, p.out + [AssignLine(t, e)], p.origin + [n], Some(Candidate(|p.out|, t)));
    StripKeepsOut(BeforeEquals(tempLine), '=');
    CandidateText(t, e);
    MergeStep(p, t, AssignLine(t, e), Strip(e), x, n);
    assert Step(p1, userLine, n + 1) == UserStep(p1, x, t, n + 1);
  }

  /** The merge on the pass state: the candidate line, whose text after `=`
      strips to `stripped`, is rewritten to `x = stripped`. */
  lemma MergeStep(p: Pass, t: string, line: string, stripped: string, x: string, n: nat)
    requires Valid(p) && '=' in line && Strip(AfterEquals(line)) == stripped
    ensures var p1 := Pass(p.definitions, p.out + [line], p.origin + [n], Some(Candidate(|p.out|, t)));
      Valid(p1) && UserStep(p1, x, t, n + 1).out == p.out + [AssignLine(x, stripped)]
      && UserStep(p1, x, t, n + 1).last.None?
  {
    var out1 := p.out + [line];
    var p1 := Pass(p.definitions, out1, p.origin + [n], Some(Candidate(|p.out|, t)));
    assert out1[|p.out|] == line;
    assert Valid(p1);
    var merged := AssignLine(x, stripped);
    assert p1.out[p1.last.value.index] == line;
    UserMerges(p1, x, t, n + 1, merged);
    ReplaceLast(p.out, line, merged);
  }

  /** The merge branch of the user-assignment step. */
  lemma UserMerges(p: Pass, lhs: string, newRhs: string, n: nat, merged: string)
    requires Valid(p) && p.last.Some? && newRhs == p.last.value.temp
    requires merged == AssignLine(lhs, Strip(AfterEquals(p.out[p.last.value.index])))
    ensures UserStep(p, lhs, newRhs, n) == Pass(p.definitions, p.out[p.last.value.index := merged], p.origin, None)
  {
  }

  /** The candidate line `t = e` holds an `=`, and strip of what follows it
      is strip of `e`. */
  lemma CandidateText(t: string, e: string)
    requires '=' !in t
    ensures '=' in AssignLine(t, e) && Strip(AfterEquals(AssignLine(t, e))) == Strip(e)
  {
    EqualsAt(t, e);
    StripSpaceFront(e);
  }

  lemma ReplaceLast<T>(s: seq<T>, a: T, b: T)
    ensures (s + [a])[|s| := b] == s + [b]
  {
  }

  // ---------------------------------------------------------------------------
  // Inlining never adds an operator

  lemma OpCountCat(a: string, b: string)
    ensures OpCount(a + b) == OpCount(a) + OpCount(b)
  {
    assert multiset(a + b) == multiset(a) + multiset(b);
  }

  lemma WordHasNoOps(w: string)
    requires forall k :: 0 <= k < |w| ==> IsWordChar(w[k])
    ensures OpCount(w) == 0
  {
    assert '+' !in w && '-' !in w && '*' !in w && '/' !in w;
  }

  /** Replacing words by operator-free text keeps the operators of a text. */
  lemma {:induction false} OpCountSubstitute(s: string, table: map<string, string>, pat: WordPattern)
    requires DefinitionsSimple(table)
    ensures OpCount(Substitute(s, table, pat)) == OpCount(s)
    decreases |s|
  {
    if s != [] {
      if !IsWordChar(s[0]) {
        OpCountSubstitute(s[1..], table, pat);
        OpCountCharStep(s, table, pat);
      } else {
        OpCountSubstitute(s[WordRun(s)..], table, pat);
        OpCountWordStep(s, table, pat);
      }
    }
  }

  lemma OpCountCharStep(s: string, table: map<string, string>, pat: WordPattern)
    requires s != [] && !IsWordChar(s[0])
    requires OpCount(Substitute(s[1..], table, pat)) == OpCount(s[1..])
    ensures OpCount(Substitute(s, table, pat)) == OpCount(s)
  {
    OpCountCat([s[0]], Substitute(s[1..], table, pat));
    assert s == [s[0]] + s[1..];
    OpCountCat([s[0]], s[1..]);
  }

  lemma OpCountWordStep(s: string, table: map<string, string>, pat: WordPattern)
    requires DefinitionsSimple(table)
    requires s != [] && IsWordChar(s[0])
    requires OpCount(Substitute(s[WordRun(s)..], table, pat)) == OpCount(s[WordRun(s)..])
    ensures OpCount(Substitute(s, table, pat)) == OpCount(s)
  {
    var n := WordRun(s);
    var w, rest := s[..n], Substitute(s[n..], table, pat);
    var x := if MatchesRun(pat, w) && w in table then table[w] else w;
    SubstituteWordStep(s, table, pat);
    OpCountCat(x, rest);
    WordHasNoOps(w);
    assert OpCount(x) == 0;
    SplitAt(s, n);
    OpCountCat(w, s[n..]);
  }

  /** What the first pass stores holds no operator, so substituting it into a
      right-hand side leaves exactly the operators that side had: a line never
      gains a binary operation by inlining. */
  lemma InliningKeepsOperators(lines: seq<string>, rhs: string)
    ensures OpCount(Substitute(rhs, PassOf(lines).definitions, Identifier)) == OpCount(rhs)
  {
    OpCountSubstitute(rhs, PassOf(lines).definitions, Identifier);
  }

  /** An identifier with a definition, standing as a whole word, is replaced
      by that definition, and the text around it is substituted on its own. */
  lemma InlinedWord(defs: map<string, string>, a: string, t: string, b: string)
    requires t in defs
    requires t != [] && (IsLetter(t[0]) || t[0] == '_') && forall k :: 0 <= k < |t| ==> IsWordChar(t[k])
    requires a == [] || !IsWordChar(a[|a| - 1])
    requires b == [] || !IsWordChar(b[0])
    ensures Substitute(a + t + b, defs, Identifier) ==
      Substitute(a, defs, Identifier) + defs[t] + Substitute(b, defs, Identifier)
  {
    var sa, sb := Substitute(a, defs, Identifier), Substitute(b, defs, Identifier);
    assert a + t + b == a + (t + b);
    SubstituteAppend(a, t + b, defs, Identifier);
    SubstituteAppend(t, b, defs, Identifier);
    SubstituteWord(t, defs, Identifier);
    assert MatchesRun(Identifier, t);
    assert Substitute(t + b, defs, Identifier) == defs[t] + sb;
    ConcatAssoc(sa, defs[t], sb);
  }

  // ---------------------------------------------------------------------------
  // Length and order

  lemma {:induction false} IncreasingBound(origin: seq<nat>, n: nat)
    requires OriginsOrdered(origin, n)
    ensures |origin| <= n
    decreases |origin|
  {
    if origin != [] {
      var o := origin[..|origin| - 1];
      assert OriginsOrdered(o, origin[|origin| - 1]);
      IncreasingBound(o, origin[|origin| - 1]);
    }
  }

  /** Every output line stands for a distinct input line, in input order, so
      the output is never longer than the input; the empty input gives the
      empty output. */
  lemma OptimizedShorter(lines: seq<string>)
    ensures |Optimized(lines)| <= |lines|
    ensures lines == [] ==> Optimized(lines) == []
  {
    if lines != [] {
      IncreasingBound(PassOf(lines).origin, |lines|);
    }
  }

  // ---------------------------------------------------------------------------
  // Renumbering

  /** The temporaries defined on a left-hand side, each once, in the order of
      their first definition. */
  function Firsts(lines: seq<string>): seq<string>
    decreases |lines|
  {
    if lines == [] then []
    else
      var f := Firsts(lines[..|lines| - 1]);
      var d := DefinedTemp(lines[|lines| - 1]);
      if d.Some? && d.value !in f then f + [d.value] else f
  }

  predicate Distinct(f: seq<string>) {
    forall a, b :: 0 <= a < b < |f| ==> f[a] != f[b]
  }

  /** temp_map sends the k-th temporary of `f` to `temp<k>`, has no other
      keys, and temp_counter is one past the number of them. */
  ghost predicate Numbered(m: map<string, string>, c: nat, f: seq<string>) {
    && c == |f| + 1
    && Distinct(f)
    && (forall x :: x in m <==> x in f)
    && (forall k :: 0 <= k < |f| ==> m[f[k]] == Icg.Temp(k + 1))
  }

  /** temp_map sends the k-th temporary first defined to `temp<k>`. */
  lemma {:induction false} RenumberFirsts(lines: seq<string>)
    ensures Numbered(RenumberOf(lines).tempMap, RenumberOf(lines).counter, Firsts(lines))
    decreases |lines|
  {
    if lines != [] {
      var init := lines[..|lines| - 1];
      RenumberFirsts(init);
      var r := RenumberOf(init);
      NumberedStep(r.tempMap, r.counter, Firsts(init), DefinedTemp(lines[|lines| - 1]));
    }
  }

  lemma NumberedStep(m: map<string, string>, c: nat, f: seq<string>, d: Option<string>)
    requires Numbered(m, c, f)
    ensures var (m', c') := Register(m, c, d);
      Numbered(m', c', if d.Some? && d.value !in f then f + [d.value] else f)
  {
    if d.Some? && d.value !in f {
      var f' := f + [d.value];
      var m' := m[d.value := Icg.Temp(c)];
      forall k | 0 <= k < |f'| ensures m'[f'[k]] == Icg.Temp(k + 1) {
        if k < |f| {
          assert f'[k] == f[k];
        }
      }
      assert forall x :: x in m' <==> x in f';
    }
  }

  /** No two temporaries get the same new name. */
  lemma RenumberInjective(lines: seq<string>)
    ensures var m := RenumberOf(lines).tempMap;
      forall x, y :: x in m && y in m && x != y ==> m[x] != m[y]
  {
    RenumberFirsts(lines);
    NumberedInjective(RenumberOf(lines).tempMap, RenumberOf(lines).counter, Firsts(lines));
  }

  lemma NumberedInjective(m: map<string, string>, c: nat, f: seq<string>)
    requires Numbered(m, c, f)
    ensures forall x, y :: x in m && y in m && x != y ==> m[x] != m[y]
  {
    forall x, y | x in m && y in m && x != y ensures m[x] != m[y] {
      assert x in f && y in f;
      var a :| 0 <= a < |f| && f[a] == x;
      var b :| 0 <= b < |f| && f[b] == y;
      Icg.TempInjective(a + 1, b + 1);
    }
  }

  /** Every entry of `small` is in `big`. */
  predicate Extends(big: map<string, string>, small: map<string, string>) {
    forall x :: x in small ==> x in big && big[x] == small[x]
  }

  /** The renumbering map only grows, and a line's renaming is fixed once it
      is written. */
  lemma {:induction false} RenumberPrefix(lines: seq<string>, n: nat)
    requires n <= |lines|
    ensures Extends(RenumberOf(lines).tempMap, RenumberOf(lines[..n]).tempMap)
    ensures RenumberOf(lines).lines[..n] == RenumberOf(lines[..n]).lines
    decreases |lines|
  {
    if n < |lines| {
      var init := lines[..|lines| - 1];
      PrefixOfInit(lines, n);
      RenumberPrefix(init, n);
    } else {
      Whole(lines);
    }
  }

  /** Each line is renamed with the map as it stood after that line, which
      the final map extends: an old temporary gets the same new name in every
      line from its definition on. */
  lemma RenamedConsistently(lines: seq<string>, i: nat)
    requires i < |lines|
    ensures var m := RenumberOf(lines[..i + 1]).tempMap;
      && RenumberOf(lines).lines[i] == Substitute(lines[i], m, TempName)
      && Extends(RenumberOf(lines).tempMap, m)
  {
    RenumberPrefix(lines, i + 1);
    PrefixStep(lines, i);
    assert RenumberOf(lines).lines[i] == RenumberOf(lines).lines[..i + 1][i];
  }
}
