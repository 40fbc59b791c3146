/** What the assembly generator promises: how operands are classified and
    read, what the code of one line looks like, and what holds of the code of
    a whole program. */
module AssemblyLaws {
  import opened Wrappers
  import opened Strings
  import opened Trees
  import Lexer
  import Semantic
  import opened Assembly

  // ---------------------------------------------------------------------------
  // Reading numerals

  /** Dots counts the dots of digit-and-dot text and rejects anything else. */
  lemma {:induction false} DotsCount(v: string)
    ensures Dots(v).Some? <==> forall k :: 0 <= k < |v| ==> Lexer.IsNumberChar(v[k])
    ensures Dots(v).Some? ==> Dots(v).value == multiset(v)['.']
    decreases |v|
  {
    if v != [] {
      var t := v[1..];
      DotsCount(t);
      assert v == [v[0]] + t;
      assert multiset(v) == multiset{v[0]} + multiset(t);
      if forall k :: 0 <= k < |v| ==> Lexer.IsNumberChar(v[k]) {
        forall k | 0 <= k < |t| ensures Lexer.IsNumberChar(t[k]) {
          assert t[k] == v[k + 1];
        }
      } else if Lexer.IsNumberChar(v[0]) {
        var k :| 0 <= k < |v| && !Lexer.IsNumberChar(v[k]);
        assert t[k - 1] == v[k];
      }
    }
  }

  /** Text Python's `float` reads, as the lexer's numerals: the reading the
      generator's type test uses and the semantic analyser's agree. */
  lemma FloatReadsNumber(v: string)
    ensures FloatReads(v) <==> Semantic.NumberText(v)
  {
    DotsCount(v);
  }

  /** Dropping a dot keeps text made of digits and dots so, and nothing else. */
  lemma NumberCharsWithoutDot(op: string, i: nat)
    requires i < |op| && op[i] == '.'
    ensures var d := op[..i] + op[i + 1..];
      (forall k :: 0 <= k < |op| ==> Lexer.IsNumberChar(op[k])) <==>
      (forall k :: 0 <= k < |d| ==> Lexer.IsNumberChar(d[k]))
  {
    var d := op[..i] + op[i + 1..];
    if forall k :: 0 <= k < |d| ==> Lexer.IsNumberChar(d[k]) {
      forall k | 0 <= k < |op| ensures Lexer.IsNumberChar(op[k]) {
        if k < i { assert op[k] == d[k]; } else if k > i { assert op[k] == d[k - 1]; }
      }
    }
    if forall k :: 0 <= k < |op| ==> Lexer.IsNumberChar(op[k]) {
      forall k | 0 <= k < |d| ensures Lexer.IsNumberChar(d[k]) {
        if k < i { assert d[k] == op[k]; } else { assert d[k] == op[k + 1]; }
      }
    }
  }

  /** is_literal accepts exactly the text `float` reads: dropping one dot
      leaves digits exactly when the text has at most one dot, at least one
      digit and nothing else. */
  lemma LiteralIsNumber(op: string)
    ensures IsLiteral(op) <==> Semantic.NumberText(op)
  {
    FloatReadsNumber(op);
    if IndexOf(op, '.') < |op| {
      LiteralWithDot(op);
    } else {
      LiteralWithoutDot(op);
    }
  }

  lemma LiteralWithDot(op: string)
    requires IndexOf(op, '.') < |op|
    ensures IsLiteral(op) <==> FloatReads(op)
  {
    var i := IndexOf(op, '.');
    var d := RemoveFirstDot(op);
    DotsCount(op);
    DotsCount(d);
    DropDotCount(op, i);
    NumberCharsWithoutDot(op, i);
    assert Dots(op) != Some(0);
    assert Dots(op) == Some(1) <==> Dots(d) == Some(0);
    assert |op| == |d| + 1;
    assert op == "." <==> |d| == 0 by {
      if |d| == 0 { assert op == [op[i]]; }
    }
  }

  /** Dropping one dot lowers the count of dots by one. */
  lemma DropDotCount(op: string, i: nat)
    requires i < |op| && op[i] == '.'
    ensures multiset(op)['.'] == multiset(op[..i] + op[i + 1..])['.'] + 1
  {
    assert op == op[..i] + [op[i]] + op[i + 1..];
    assert multiset(op) == multiset(op[..i]) + multiset{'.'} + multiset(op[i + 1..]);
  }

  lemma LiteralWithoutDot(op: string)
    requires IndexOf(op, '.') == |op|
    ensures IsLiteral(op) <==> FloatReads(op)
  {
    DotsCount(op);
    assert '.' !in multiset(op);
  }

  /** Stripping leaves text with no white space at either end unchanged. */
  lemma StripTrimmed(s: string)
    requires Trimmed(s)
    ensures Strip(s) == s
  {
    StripPadded([], s, []);
    assert [] + s + [] == s;
  }

  // ---------------------------------------------------------------------------
  // get_type and parse_operand on what the earlier stages produce

  /** Dots finds no dot exactly in a run of digits. */
  lemma {:induction false} DotsDigits(v: string)
    ensures Dots(v) == Some(0) <==> AllDigits(v)
    decreases |v|
  {
    if v != [] {
      DotsDigits(v[1..]);
      if AllDigits(v) {
        assert AllDigits(v[1..]) by {
          forall k | 0 <= k < |v[1..]| ensures IsDigit(v[1..][k]) { assert v[1..][k] == v[k + 1]; }
        }
      }
    }
  }

  /** A numeral does not start with the promotion's text. */
  lemma NumeralNotPromotion(v: string)
    requires |v| > 0 && Lexer.IsNumberChar(v[0])
    ensures !StartsWith(v, Wrapper)
  {
    if |v| >= |Wrapper| {
      assert v[..|Wrapper|][0] == v[0];
    }
  }

  /** A name does not either: `(` is not a word character. */
  lemma NameNotPromotion(v: string)
    requires forall k :: 0 <= k < |v| ==> IsWordChar(v[k])
    ensures !StartsWith(v, Wrapper)
  {
    if |v| >= |Wrapper| {
      assert v[..|Wrapper|][12] == v[12];
    }
  }

  lemma ClassifyInt(v: string, idTypes: map<string, NumType>)
    requires |v| > 0 && AllDigits(v)
    ensures Classify(v, idTypes) == INT
  {
    NumeralNotPromotion(v);
    DotsDigits(v);
  }

  lemma ClassifyFloat(v: string, idTypes: map<string, NumType>)
    requires |v| > 0 && v[0] != '.' && multiset(v)['.'] == 1
    requires forall k :: 0 <= k < |v| ==> Lexer.IsNumberChar(v[k])
    ensures Classify(v, idTypes) == FLOAT
  {
    NumeralNotPromotion(v);
    DotsCount(v);
    assert '.' in multiset(v);
  }

  lemma ClassifyName(v: string, idTypes: map<string, NumType>)
    requires |v| > 0 && (IsLetter(v[0]) || v[0] == '_')
    requires forall k :: 0 <= k < |v| ==> IsWordChar(v[k])
    ensures Classify(v, idTypes) == if v in idTypes then idTypes[v] else INT
  {
    NameNotPromotion(v);
    assert '.' !in v;
    DotsDigits(v);
    assert !IsDigit(v[0]);
  }

  /** get_type of text with no white space at either end is its tests. */
  lemma TypeOfStripped(v: string, idTypes: map<string, NumType>)
    requires Trimmed(v)
    ensures TypeOf(v, idTypes) == Classify(v, idTypes)
  {
    StripTrimmed(v);
  }

  /** get_type of an integer numeral is INT. */
  lemma TypeOfInt(v: string, idTypes: map<string, NumType>)
    requires |v| > 0 && AllDigits(v)
    ensures TypeOf(v, idTypes) == INT
  {
    TypeOfStripped(v, idTypes);
    ClassifyInt(v, idTypes);
  }

  /** get_type of a numeral with one dot, not at its start, is FLOAT. */
  lemma TypeOfFloat(v: string, idTypes: map<string, NumType>)
    requires |v| > 0 && v[0] != '.' && multiset(v)['.'] == 1
    requires forall k :: 0 <= k < |v| ==> Lexer.IsNumberChar(v[k])
    ensures TypeOf(v, idTypes) == FLOAT
  {
    assert Lexer.IsNumberChar(v[|v| - 1]);
    TypeOfStripped(v, idTypes);
    ClassifyFloat(v, idTypes);
  }

  /** get_type of a name: its recorded type, INT when it has none. */
  lemma TypeOfName(v: string, idTypes: map<string, NumType>)
    requires |v| > 0 && (IsLetter(v[0]) || v[0] == '_')
    requires forall k :: 0 <= k < |v| ==> IsWordChar(v[k])
    ensures TypeOf(v, idTypes) == if v in idTypes then idTypes[v] else INT
  {
    assert IsWordChar(v[|v| - 1]);
    TypeOfStripped(v, idTypes);
    ClassifyName(v, idTypes);
  }

  /** get_type on the lexer's tokens: an INT numeral is INT, a FLOAT numeral
      is FLOAT, and an identifier has its recorded type, INT when it has
      none. */
  lemma TypeOfToken(t: Lexer.Token, idTypes: map<string, NumType>)
    requires Lexer.WellFormed(t)
    ensures t.kind.INT? ==> TypeOf(t.value, idTypes) == INT
    ensures t.kind.FLOAT? ==> TypeOf(t.value, idTypes) == FLOAT
    ensures t.kind.IDENTIFIER? ==>
      TypeOf(t.value, idTypes) == if t.value in idTypes then idTypes[t.value] else INT
  {
    match t.kind
    case INT => TypeOfInt(t.value, idTypes);
    case FLOAT => TypeOfFloat(t.value, idTypes);
    case IDENTIFIER => TypeOfName(t.value, idTypes);
    case _ =>
  }

  /** The match of parse_operand on `int_to_float(x)` gives back `x`. */
  lemma UnwrapPromotion(x: string)
    requires |x| > 0 && '\n' !in x
    ensures Unwrap(Wrapper + x + ")") == x
  {
    var v := Wrapper + x + ")";
    assert v[..|Wrapper|] == Wrapper;
    var rest := v[|Wrapper|..];
    assert rest == x + ")";
    var n := IndexOf(rest, '\n');
    assert n == |rest|;
    assert v[..|Wrapper| + n] == v;
    assert LastIndex(v, ')', |Wrapper| + 1) == Some(|v| - 1);
    assert v[|Wrapper|..|v| - 1] == x;
  }

  /** The promotion's text has no white space at either end and starts with
      `int_to_float(`. */
  lemma PromotionText(x: string)
    ensures Trimmed(Wrapper + x + ")") && StartsWith(Wrapper + x + ")", Wrapper)
  {
    var v := Wrapper + x + ")";
    assert v[0] == 'i' && v[|v| - 1] == ')';
    assert v[..|Wrapper|] == Wrapper;
  }

  /** A promotion `int_to_float(x)` is read as `x`, typed FLOAT. */
  lemma PromotionOperand(x: string, idTypes: map<string, NumType>)
    requires |x| > 0 && '\n' !in x
    ensures ReadOperand(Wrapper + x + ")", idTypes) == Operand(x, IsLiteral(x), FLOAT)
  {
    PromotionText(x);
    StripTrimmed(Wrapper + x + ")");
    UnwrapPromotion(x);
  }

  // ---------------------------------------------------------------------------
  // The code of one line

  /** An operand whose literal flag is is_literal of its text, as the
      generator reads every operand. */
  predicate ReadConsistently(x: Operand) { x.lit == IsLiteral(x.text) }

  lemma ReadOperandConsistent(raw: string, idTypes: map<string, NumType>)
    ensures ReadConsistently(ReadOperand(raw, idTypes))
  {
  }

  /** An immediate is a literal and a memory operand is not. */
  predicate SrcTidy(s: Src) {
    match s
    case InReg(_) => true
    case Imm(t) => IsLiteral(t)
    case Mem(n) => !IsLiteral(n)
  }

  /** Loads read an immediate or memory, every result is computed into R1
      and stored from R1. */
  predicate InstrTidy(i: AsmInstr) {
    match i
    case Load(_, _, s) => SrcTidy(s) && !s.InReg?
    case Calc(_, _, d, a, b) => d == R1 && SrcTidy(a) && SrcTidy(b)
    case Store(_, _, r) => r == R1
  }

  predicate Tidy(code: seq<AsmInstr>) {
    forall k :: 0 <= k < |code| ==> InstrTidy(code[k])
  }

  predicate NoStore(code: seq<AsmInstr>) {
    forall k :: 0 <= k < |code| ==> !code[k].Store?
  }

  /** Where a line's result goes: a temporary (without write-through) gets no
      store, becomes resident and has its type recorded; any other
      destination gets exactly one `STR[F] lhs, R1`, as the last instruction,
      and leaves no resident temporary. */
  predicate Destined(e: Gen, lhs: string, isFloat: bool, idTypes: map<string, NumType>, writeThrough: bool) {
    var temp := StartsWith(lhs, "temp");
    (temp ==> e.resident == Some(lhs) && e.idTypes == idTypes[lhs := if isFloat then FLOAT else INT])
    && (!temp ==> e.resident == None && e.idTypes == idTypes)
    && if temp && !writeThrough then NoStore(e.code)
       else |e.code| > 0 && e.code[|e.code| - 1] == Store(isFloat, lhs, R1) && NoStore(e.code[..|e.code| - 1])
  }

  /** The code of a binary operation is loads followed by one arithmetic
      instruction, computed into R1 with R1 among its inputs. */
  lemma CodeShape(a: Arith, f: bool, x: Operand, y: Operand, resident: Option<string>)
    ensures var c := BinaryCode(a, f, x, y, resident);
      |c| > 0 && c[|c| - 1].Calc? && c[|c| - 1].op == a && c[|c| - 1].isFloat == f && c[|c| - 1].dst == R1
      && (c[|c| - 1].a == InReg(R1) || c[|c| - 1].b == InReg(R1))
      && forall j :: 0 <= j < |c| - 1 ==> c[j].Load?
  {
  }

  lemma OperandTidy(x: Operand)
    requires ReadConsistently(x)
    ensures InstrTidy(LoadOf(R1, x)) && InstrTidy(LoadOf(R2, x))
    ensures x.lit ==> SrcTidy(Imm(x.text))
  {
  }

  lemma TidyShort(i: AsmInstr, j: AsmInstr, k: AsmInstr)
    ensures InstrTidy(i) ==> Tidy([i])
    ensures InstrTidy(i) && InstrTidy(j) ==> Tidy([i, j])
    ensures InstrTidy(i) && InstrTidy(j) && InstrTidy(k) ==> Tidy([i, j, k])
  {
  }

  lemma CodeTidy(a: Arith, f: bool, x: Operand, y: Operand, resident: Option<string>)
    requires ReadConsistently(x) && ReadConsistently(y)
    ensures Tidy(BinaryCode(a, f, x, y, resident))
  {
    OperandTidy(x);
    OperandTidy(y);
    var arith := Calc(a, f, R1, InReg(R1), InReg(R2));
    if InR1(x, resident) {
      if y.lit { TidyShort(Calc(a, f, R1, InReg(R1), Imm(y.text)), arith, arith); }
      else { TidyShort(LoadOf(R2, y), arith, arith); }
    } else if InR1(y, resident) {
      if x.lit { TidyShort(Calc(a, f, R1, Imm(x.text), InReg(R1)), arith, arith); }
      else { TidyShort(LoadOf(R2, x), Calc(a, f, R1, InReg(R2), InReg(R1)), arith); }
    } else if x.lit && !y.lit {
      TidyShort(LoadOf(R1, y), Calc(a, f, R1, Imm(x.text), InReg(R1)), arith);
    } else if y.lit {
      TidyShort(LoadOf(R1, x), Calc(a, f, R1, InReg(R1), Imm(y.text)), arith);
    } else {
      TidyShort(LoadOf(R1, x), LoadOf(R2, y), arith);
    }
  }

  /** Finishing a line appends at most the store of its result. */
  lemma FinishAppends(code: seq<AsmInstr>, lhs: string, ty: NumType, idTypes: map<string, NumType>, writeThrough: bool)
    ensures var e := Finish(code, lhs, ty, idTypes, writeThrough);
      e.code == code || e.code == code + [Store(ty == FLOAT, lhs, R1)]
  {
  }

  lemma FinishDestined(code: seq<AsmInstr>, lhs: string, ty: NumType, idTypes: map<string, NumType>, writeThrough: bool)
    requires NoStore(code)
    ensures Destined(Finish(code, lhs, ty, idTypes, writeThrough), lhs, ty == FLOAT, idTypes, writeThrough)
  {
    var e := Finish(code, lhs, ty, idTypes, writeThrough);
    if !(StartsWith(lhs, "temp") && !writeThrough) {
      assert e.code[..|e.code| - 1] == code;
    }
  }

  lemma BinaryTidy(lhs: string, op: char, x: Operand, y: Operand, resident: Option<string>,
                   idTypes: map<string, NumType>, writeThrough: bool)
    requires ReadConsistently(x) && ReadConsistently(y)
    ensures Tidy(BinaryLine(lhs, op, x, y, resident, idTypes, writeThrough).code)
  {
    var f := x.ty == FLOAT || y.ty == FLOAT;
    var p := Ordered(op, x, y, resident);
    assert ReadConsistently(p.0) && ReadConsistently(p.1);
    var c := BinaryCode(ArithOf(op), f, p.0, p.1, resident);
    CodeTidy(ArithOf(op), f, p.0, p.1, resident);
    var st := Store(f, lhs, R1);
    TidyShort(st, st, st);
    TidyAppend(c, [st]);
    assert BinaryLine(lhs, op, x, y, resident, idTypes, writeThrough) == Finish(c, lhs, if f then FLOAT else INT, idTypes, writeThrough);
    FinishAppends(c, lhs, if f then FLOAT else INT, idTypes, writeThrough);
  }

  lemma SimpleTidy(lhs: string, x: Operand, resident: Option<string>, idTypes: map<string, NumType>, writeThrough: bool)
    requires ReadConsistently(x)
    ensures Tidy(SimpleLine(lhs, x, resident, idTypes, writeThrough).code)
  {
  }

  /** A binary operation computes once: exactly one arithmetic instruction,
      whose mnemonic is the operator's, `F` exactly when an operand is
      FLOAT, with its result in R1 and R1 among its inputs. */
  lemma BinaryMnemonic(lhs: string, op: char, x: Operand, y: Operand, resident: Option<string>,
                       idTypes: map<string, NumType>, writeThrough: bool)
    ensures var code := BinaryLine(lhs, op, x, y, resident, idTypes, writeThrough).code;
      exists k :: 0 <= k < |code| && code[k].Calc? && code[k].op == ArithOf(op) && code[k].dst == R1
        && (code[k].isFloat <==> x.ty == FLOAT || y.ty == FLOAT)
        && (code[k].a == InReg(R1) || code[k].b == InReg(R1))
        && forall j :: 0 <= j < |code| && j != k ==> !code[j].Calc?
  {
    var f := x.ty == FLOAT || y.ty == FLOAT;
    var (x', y') := Ordered(op, x, y, resident);
    var c := BinaryCode(ArithOf(op), f, x', y', resident);
    CodeShape(ArithOf(op), f, x', y', resident);
    FinishAppends(c, lhs, if f then FLOAT else INT, idTypes, writeThrough);
    var code := BinaryLine(lhs, op, x, y, resident, idTypes, writeThrough).code;
    assert code[|c| - 1] == c[|c| - 1];
  }

  /** A simple assignment computes nothing. */
  lemma SimpleNoCalc(lhs: string, x: Operand, resident: Option<string>, idTypes: map<string, NumType>, writeThrough: bool)
    ensures var code := SimpleLine(lhs, x, resident, idTypes, writeThrough).code;
      forall j :: 0 <= j < |code| ==> !code[j].Calc?
  {
  }

  /** An operand already in R1 is not loaded into R1 again: with either
      operand resident, the only load is into R2; with neither, the code
      starts by loading R1. */
  lemma BinaryResident(lhs: string, op: char, x: Operand, y: Operand, resident: Option<string>,
                       idTypes: map<string, NumType>, writeThrough: bool)
    ensures var code := BinaryLine(lhs, op, x, y, resident, idTypes, writeThrough).code;
      (InR1(x, resident) || InR1(y, resident) ==> forall j :: 0 <= j < |code| && code[j].Load? ==> code[j].dst == R2)
      && (!InR1(x, resident) && !InR1(y, resident) ==> |code| > 0 && code[0].Load? && code[0].dst == R1)
  {
    var f := x.ty == FLOAT || y.ty == FLOAT;
    var (x', y') := Ordered(op, x, y, resident);
    FinishAppends(BinaryCode(ArithOf(op), f, x', y', resident), lhs, if f then FLOAT else INT, idTypes, writeThrough);
  }

  /** A simple assignment from the resident temporary loads nothing; from
      anything else it loads the operand into R1 first. */
  lemma SimpleResident(lhs: string, x: Operand, resident: Option<string>, idTypes: map<string, NumType>, writeThrough: bool)
    ensures var code := SimpleLine(lhs, x, resident, idTypes, writeThrough).code;
      (InR1(x, resident) ==> forall j :: 0 <= j < |code| ==> !code[j].Load?)
      && (!InR1(x, resident) ==> |code| > 0 && code[0] == LoadOf(R1, x))
  {
  }

  lemma BinaryDestination(lhs: string, op: char, x: Operand, y: Operand, resident: Option<string>,
                          idTypes: map<string, NumType>, writeThrough: bool)
    ensures Destined(BinaryLine(lhs, op, x, y, resident, idTypes, writeThrough), lhs, x.ty == FLOAT || y.ty == FLOAT, idTypes, writeThrough)
  {
    var f := x.ty == FLOAT || y.ty == FLOAT;
    var (x', y') := Ordered(op, x, y, resident);
    var c := BinaryCode(ArithOf(op), f, x', y', resident);
    CodeShape(ArithOf(op), f, x', y', resident);
    FinishDestined(c, lhs, if f then FLOAT else INT, idTypes, writeThrough);
  }

  lemma SimpleDestination(lhs: string, x: Operand, resident: Option<string>, idTypes: map<string, NumType>, writeThrough: bool)
    ensures Destined(SimpleLine(lhs, x, resident, idTypes, writeThrough), lhs, x.ty == FLOAT, idTypes, writeThrough)
  {
    FinishDestined(if InR1(x, resident) then [] else [LoadOf(R1, x)], lhs, x.ty, idTypes, writeThrough);
  }

  // ---------------------------------------------------------------------------
  // The code of a program

  lemma LineTidy(form: LineForm, resident: Option<string>, idTypes: map<string, NumType>, writeThrough: bool)
    ensures Tidy(LineCode(form, resident, idTypes, writeThrough).code)
  {
    match form
    case NoAssign =>
    case Binary(lhs, op, raw1, raw2) =>
      ReadOperandConsistent(raw1, idTypes);
      ReadOperandConsistent(raw2, idTypes);
      BinaryTidy(lhs, op, ReadOperand(raw1, idTypes), ReadOperand(raw2, idTypes), resident, idTypes, writeThrough);
    case Simple(lhs, raw) =>
      ReadOperandConsistent(raw, idTypes);
      SimpleTidy(lhs, ReadOperand(raw, idTypes), resident, idTypes, writeThrough);
  }

  lemma TidyAppend(a: seq<AsmInstr>, b: seq<AsmInstr>)
    requires Tidy(a) && Tidy(b)
    ensures Tidy(a + b)
  {
    forall k | 0 <= k < |a + b| ensures InstrTidy((a + b)[k]) {
      if k < |a| { assert (a + b)[k] == a[k]; } else { assert (a + b)[k] == b[k - |a|]; }
    }
  }

  /** In all the code generated for a program, results are computed into
      R1 and stored from R1, immediates (printed with `#`) are literals and
      memory operands are not. */
  lemma {:induction false} GeneratedTidy(lines: seq<string>, idTypes: map<string, NumType>, writeThrough: bool)
    ensures Tidy(Generated(lines, idTypes, writeThrough).code)
    decreases |lines|
  {
    if lines != [] {
      var init := lines[..|lines| - 1];
      GeneratedTidy(init, idTypes, writeThrough);
      var g := Generated(init, idTypes, writeThrough);
      LineTidy(ReadLine(lines[|lines| - 1]), g.resident, g.idTypes, writeThrough);
      TidyAppend(g.code, LineCode(ReadLine(lines[|lines| - 1]), g.resident, g.idTypes, writeThrough).code);
    }
  }

  /** One more line extends the code and replaces the state. */
  lemma GeneratedSnoc(lines: seq<string>, line: string, idTypes: map<string, NumType>, writeThrough: bool, g: Gen, e: Gen)
    requires g == Generated(lines, idTypes, writeThrough)
    requires e == LineCode(ReadLine(line), g.resident, g.idTypes, writeThrough)
    ensures Generated(lines + [line], idTypes, writeThrough) == Gen(g.code + e.code, e.resident, e.idTypes)
  {
    assert (lines + [line])[..|lines|] == lines;
  }

  /** The lines that hold an `=`, in order. */
  function Assignments(lines: seq<string>): (r: seq<string>)
    ensures |r| <= |lines|
    ensures forall k :: 0 <= k < |r| ==> '=' in r[k]
    decreases |lines|
  {
    if lines == [] then []
    else
      var last := lines[|lines| - 1];
      Assignments(lines[..|lines| - 1]) + (if '=' in last then [last] else [])
  }

  /** Lines without `=` emit nothing and change nothing: the code and state
      are those of the assignments alone. */
  lemma {:induction false} NoAssignSilent(lines: seq<string>, idTypes: map<string, NumType>, writeThrough: bool)
    ensures Generated(lines, idTypes, writeThrough) == Generated(Assignments(lines), idTypes, writeThrough)
    decreases |lines|
  {
    if lines != [] {
      var init, last := lines[..|lines| - 1], lines[|lines| - 1];
      NoAssignSilent(init, idTypes, writeThrough);
      var g := Generated(init, idTypes, writeThrough);
      var e := LineCode(ReadLine(last), g.resident, g.idTypes, writeThrough);
      assert lines == init + [last];
      GeneratedSnoc(init, last, idTypes, writeThrough, g, e);
      if '=' in last {
        assert Assignments(lines) == Assignments(init) + [last];
        GeneratedSnoc(Assignments(init), last, idTypes, writeThrough, g, e);
      } else {
        assert Assignments(lines) == Assignments(init);
        assert ReadLine(last) == NoAssign;
        assert e == Gen([], g.resident, g.idTypes);
        assert g.code + [] == g.code;
      }
    }
  }
}
