/** The generated code run on a two-register machine, against the meaning of
    the three-address lines it was generated from. As written, a temporary's
    result lives only in R1 and is never stored, so a temporary that is
    pushed out of R1 and read later is read from memory it never reached.
    Storing every result (write-through) makes the machine's memory agree
    with the three-address code for every program. */
module AssemblyCheck {
  import opened Wrappers
  import opened Strings
  import opened Trees
  import Icg
  import Optimizer
  import opened Assembly
  import opened AssemblyLaws

  // ---------------------------------------------------------------------------
  // Values

  /** The machine here holds integers; the `F` instructions compute on the
      same values. Division by zero gives 0 on both sides of the comparison. */
  function Apply(a: Arith, u: int, v: int): int {
    match a
    case ADD => u + v
    case SUB => u - v
    case MUL => u * v
    case DIV => if v == 0 then 0 else u / v
  }

  /** The integer part of a literal. */
  function Lit(t: string): int {
    var p := t[..IndexOf(t, '.')];
    if AllDigits(p) then DigitsValue(p) else 0
  }

  /** A name never written reads 0. */
  function Get(mem: map<string, int>, n: string): int {
    if n in mem then mem[n] else 0
  }

  // ---------------------------------------------------------------------------
  // The machine

  datatype Machine = Machine(r1: int, r2: int, mem: map<string, int>)

  function RegValue(m: Machine, r: Reg): int { if r == R1 then m.r1 else m.r2 }

  function SetReg(m: Machine, r: Reg, v: int): Machine {
    if r == R1 then m.(r1 := v) else m.(r2 := v)
  }

  function SrcValue(m: Machine, s: Src): int {
    match s
    case InReg(r) => RegValue(m, r)
    case Imm(t) => Lit(t)
    case Mem(n) => Get(m.mem, n)
  }

  function Exec(m: Machine, i: AsmInstr): Machine {
    match i
    case Load(_, r, s) => SetReg(m, r, SrcValue(m, s))
    case Calc(a, _, r, x, y) => SetReg(m, r, Apply(a, SrcValue(m, x), SrcValue(m, y)))
    case Store(_, n, r) => m.(mem := m.mem[n := RegValue(m, r)])
  }

  function Run(m: Machine, code: seq<AsmInstr>): Machine
    decreases |code|
  {
    if code == [] then m else Run(Exec(m, code[0]), code[1..])
  }

  lemma {:induction false} RunAppend(m: Machine, a: seq<AsmInstr>, b: seq<AsmInstr>)
    ensures Run(m, a + b) == Run(Run(m, a), b)
    decreases |a|
  {
    if a == [] {
      assert a + b == b;
    } else {
      assert (a + b)[0] == a[0] && (a + b)[1..] == a[1..] + b;
      RunAppend(Exec(m, a[0]), a[1..], b);
    }
  }

  // ---------------------------------------------------------------------------
  // What the three-address lines mean

  function OperandValue(x: Operand, mem: map<string, int>): int {
    if x.lit then Lit(x.text) else Get(mem, x.text)
  }

  /** An operand's value: a literal's own, a name's from memory. */
  function ValueOf(raw: string, mem: map<string, int>): int {
    var v := ParseOperand(raw);
    if IsLiteral(v) then Lit(v) else Get(mem, v)
  }

  /** A line assigns its value to its target; a line without `=` does nothing. */
  function EvalForm(mem: map<string, int>, form: LineForm): map<string, int> {
    match form
    case NoAssign => mem
    case Binary(lhs, op, raw1, raw2) => mem[lhs := Apply(ArithOf(op), ValueOf(raw1, mem), ValueOf(raw2, mem))]
    case Simple(lhs, raw) => mem[lhs := ValueOf(raw, mem)]
  }

  function EvalLine(mem: map<string, int>, line: string): map<string, int> {
    EvalForm(mem, ReadLine(line))
  }

  function Eval(mem: map<string, int>, lines: seq<string>): map<string, int>
    decreases |lines|
  {
    if lines == [] then mem else EvalLine(Eval(mem, lines[..|lines| - 1]), lines[|lines| - 1])
  }

  lemma OperandValueOf(raw: string, idTypes: map<string, NumType>, mem: map<string, int>)
    ensures OperandValue(ReadOperand(raw, idTypes), mem) == ValueOf(raw, mem)
  {
  }

  // ---------------------------------------------------------------------------
  // One line

  /** The machine agrees with the three-address code: the same memory, and
      the resident temporary's value in R1. */
  predicate Agrees(m: Machine, mem: map<string, int>, resident: Option<string>) {
    m.mem == mem && (resident.Some? ==> StartsWith(resident.value, "temp") && m.r1 == Get(mem, resident.value))
  }

  /** A temporary's name is not a literal. */
  lemma TempNotLiteral(t: string)
    requires StartsWith(t, "temp")
    ensures !IsLiteral(t)
  {
    assert t[..4] == "temp";
    assert t[0] == 't' && t[1] == 'e' && t[2] == 'm' && t[3] == 'p';
    var d := RemoveFirstDot(t);
    assert d[0] == 't';
  }

  /** The operand in R1 has its value there. */
  lemma ResidentValue(x: Operand, resident: Option<string>, m: Machine, mem: map<string, int>)
    requires Agrees(m, mem, resident) && ReadConsistently(x) && InR1(x, resident)
    ensures m.r1 == OperandValue(x, mem)
  {
    TempNotLiteral(resident.value);
  }

  lemma RunShort(m: Machine, i: AsmInstr, j: AsmInstr, k: AsmInstr)
    ensures Run(m, [i]) == Exec(m, i)
    ensures Run(m, [i, j]) == Exec(Exec(m, i), j)
    ensures Run(m, [i, j, k]) == Exec(Exec(Exec(m, i), j), k)
  {
    assert [i][1..] == [] && [i, j][1..] == [j] && [i, j, k][1..] == [j, k];
    var m1 := Exec(m, i);
    assert Run(m1, [j]) == Exec(m1, j);
    assert Run(Exec(m1, j), [k]) == Exec(Exec(m1, j), k);
  }

  /** The code of a binary operation leaves memory alone and puts the
      operation's value in R1, given the value of any resident operand. */
  lemma CodeComputes(a: Arith, f: bool, x: Operand, y: Operand, resident: Option<string>, m: Machine)
    requires InR1(x, resident) ==> m.r1 == OperandValue(x, m.mem)
    requires InR1(y, resident) ==> m.r1 == OperandValue(y, m.mem)
    ensures var out := Run(m, BinaryCode(a, f, x, y, resident));
      out.mem == m.mem && out.r1 == Apply(a, OperandValue(x, m.mem), OperandValue(y, m.mem))
  {
    var c := BinaryCode(a, f, x, y, resident);
    var calc1 := Calc(a, f, R1, InReg(R1), InReg(R2));
    if InR1(x, resident) {
      if y.lit { RunShort(m, Calc(a, f, R1, InReg(R1), Imm(y.text)), calc1, calc1); }
      else { RunShort(m, LoadOf(R2, y), calc1, calc1); }
    } else if InR1(y, resident) {
      if x.lit { RunShort(m, Calc(a, f, R1, Imm(x.text), InReg(R1)), calc1, calc1); }
      else { RunShort(m, LoadOf(R2, x), Calc(a, f, R1, InReg(R2), InReg(R1)), calc1); }
    } else if x.lit && !y.lit {
      RunShort(m, LoadOf(R1, y), Calc(a, f, R1, Imm(x.text), InReg(R1)), calc1);
    } else if y.lit {
      RunShort(m, LoadOf(R1, x), Calc(a, f, R1, InReg(R1), Imm(y.text)), calc1);
    } else {
      RunShort(m, LoadOf(R1, x), LoadOf(R2, y), calc1);
    }
  }

  /** The swaps do not change the value: they apply only to `+` and `*`. */
  lemma OrderedValue(op: char, x: Operand, y: Operand, resident: Option<string>, mem: map<string, int>)
    ensures var (x', y') := Ordered(op, x, y, resident);
      Apply(ArithOf(op), OperandValue(x', mem), OperandValue(y', mem))
      == Apply(ArithOf(op), OperandValue(x, mem), OperandValue(y, mem))
  {
  }

  /** With write-through, a result computed into R1 is stored under its
      name, and a temporary's stays resident. */
  lemma FinishAgrees(code: seq<AsmInstr>, lhs: string, ty: NumType, idTypes: map<string, NumType>,
                     m: Machine, mem: map<string, int>, v: int)
    requires Run(m, code).mem == mem && Run(m, code).r1 == v
    ensures var e := Finish(code, lhs, ty, idTypes, true);
      Agrees(Run(m, e.code), mem[lhs := v], e.resident)
  {
    var st := Store(ty == FLOAT, lhs, R1);
    RunAppend(m, code, [st]);
    assert Run(Run(m, code), [st]) == Exec(Run(m, code), st);
  }

  /** With write-through, a binary operation keeps the machine in agreement. */
  lemma BinaryAgrees(lhs: string, op: char, x: Operand, y: Operand, resident: Option<string>,
                     idTypes: map<string, NumType>, m: Machine, mem: map<string, int>)
    requires Agrees(m, mem, resident) && ReadConsistently(x) && ReadConsistently(y)
    ensures var e := BinaryLine(lhs, op, x, y, resident, idTypes, true);
      Agrees(Run(m, e.code), mem[lhs := Apply(ArithOf(op), OperandValue(x, mem), OperandValue(y, mem))], e.resident)
  {
    var f := x.ty == FLOAT || y.ty == FLOAT;
    var p := Ordered(op, x, y, resident);
    if InR1(p.0, resident) { ResidentValue(p.0, resident, m, mem); }
    if InR1(p.1, resident) { ResidentValue(p.1, resident, m, mem); }
    var c := BinaryCode(ArithOf(op), f, p.0, p.1, resident);
    CodeComputes(ArithOf(op), f, p.0, p.1, resident, m);
    OrderedValue(op, x, y, resident, mem);
    FinishAgrees(c, lhs, if f then FLOAT else INT, idTypes, m, mem, Apply(ArithOf(op), OperandValue(x, mem), OperandValue(y, mem)));
    assert BinaryLine(lhs, op, x, y, resident, idTypes, true) == Finish(c, lhs, if f then FLOAT else INT, idTypes, true);
  }

  /** With write-through, a simple assignment keeps the machine in agreement. */
  lemma SimpleAgrees(lhs: string, x: Operand, resident: Option<string>, idTypes: map<string, NumType>,
                     m: Machine, mem: map<string, int>)
    requires Agrees(m, mem, resident) && ReadConsistently(x)
    ensures var e := SimpleLine(lhs, x, resident, idTypes, true);
      Agrees(Run(m, e.code), mem[lhs := OperandValue(x, mem)], e.resident)
  {
    var c := if InR1(x, resident) then [] else [LoadOf(R1, x)];
    if InR1(x, resident) { ResidentValue(x, resident, m, mem); }
    FinishAgrees(c, lhs, x.ty, idTypes, m, mem, OperandValue(x, mem));
  }

  lemma LineAgrees(line: string, resident: Option<string>, idTypes: map<string, NumType>, m: Machine, mem: map<string, int>)
    requires Agrees(m, mem, resident)
    ensures var e := LineCode(ReadLine(line), resident, idTypes, true);
      Agrees(Run(m, e.code), EvalLine(mem, line), e.resident)
  {
    match ReadLine(line)
    case NoAssign =>
    case Binary(lhs, op, raw1, raw2) =>
      var x, y := ReadOperand(raw1, idTypes), ReadOperand(raw2, idTypes);
      ReadOperandConsistent(raw1, idTypes);
      ReadOperandConsistent(raw2, idTypes);
      OperandValueOf(raw1, idTypes, mem);
      OperandValueOf(raw2, idTypes, mem);
      BinaryAgrees(lhs, op, x, y, resident, idTypes, m, mem);
      assert LineCode(ReadLine(line), resident, idTypes, true) == BinaryLine(lhs, op, x, y, resident, idTypes, true);
    case Simple(lhs, raw) =>
      var x := ReadOperand(raw, idTypes);
      ReadOperandConsistent(raw, idTypes);
      OperandValueOf(raw, idTypes, mem);
      SimpleAgrees(lhs, x, resident, idTypes, m, mem);
      assert LineCode(ReadLine(line), resident, idTypes, true) == SimpleLine(lhs, x, resident, idTypes, true);
  }

  // ---------------------------------------------------------------------------
  // Whole programs

  lemma {:induction false} WriteThroughAgrees(lines: seq<string>, idTypes: map<string, NumType>, mem: map<string, int>)
    ensures var g := Generated(lines, idTypes, true);
      Agrees(Run(Machine(0, 0, mem), g.code), Eval(mem, lines), g.resident)
    decreases |lines|
  {
    if lines != [] {
      var init, last := lines[..|lines| - 1], lines[|lines| - 1];
      WriteThroughAgrees(init, idTypes, mem);
      var g := Generated(init, idTypes, true);
      var e := LineCode(ReadLine(last), g.resident, g.idTypes, true);
      assert lines == init + [last];
      GeneratedSnoc(init, last, idTypes, true, g, e);
      var m := Run(Machine(0, 0, mem), g.code);
      RunAppend(Machine(0, 0, mem), g.code, e.code);
      LineAgrees(last, g.resident, g.idTypes, m, Eval(mem, init));
    }
  }

  /** Corrected generator: when every result is stored, running the code
      leaves memory exactly as the three-address code defines it. */
  lemma WriteThroughCorrect(lines: seq<string>, idTypes: map<string, NumType>, mem: map<string, int>)
    ensures Run(Machine(0, 0, mem), Generated(lines, idTypes, true).code).mem == Eval(mem, lines)
  {
    WriteThroughAgrees(lines, idTypes, mem);
  }

  // ---------------------------------------------------------------------------
  // As written: temporaries are never stored

  predicate StoresNoTemp(code: seq<AsmInstr>) {
    forall k :: 0 <= k < |code| && code[k].Store? ==> !StartsWith(code[k].name, "temp")
  }

  lemma DestinedNoTemp(e: Gen, lhs: string, isFloat: bool, idTypes: map<string, NumType>)
    requires Destined(e, lhs, isFloat, idTypes, false)
    ensures StoresNoTemp(e.code)
  {
    if !StartsWith(lhs, "temp") {
      var n := |e.code| - 1;
      forall k | 0 <= k < n
        ensures !e.code[k].Store?
      {
        assert e.code[k] == e.code[..n][k];
      }
    }
  }

  lemma LineStoresNoTemp(form: LineForm, resident: Option<string>, idTypes: map<string, NumType>)
    ensures StoresNoTemp(LineCode(form, resident, idTypes, false).code)
  {
    match form
    case NoAssign =>
    case Binary(lhs, op, raw1, raw2) =>
      var x, y := ReadOperand(raw1, idTypes), ReadOperand(raw2, idTypes);
      BinaryDestination(lhs, op, x, y, resident, idTypes, false);
      DestinedNoTemp(BinaryLine(lhs, op, x, y, resident, idTypes, false), lhs, x.ty == FLOAT || y.ty == FLOAT, idTypes);
    case Simple(lhs, raw) =>
      var x := ReadOperand(raw, idTypes);
      SimpleDestination(lhs, x, resident, idTypes, false);
      DestinedNoTemp(SimpleLine(lhs, x, resident, idTypes, false), lhs, x.ty == FLOAT, idTypes);
  }

  /** As written, no generated `STR` ever names a temporary. */
  lemma {:induction false} TempsNeverStored(lines: seq<string>, idTypes: map<string, NumType>)
    ensures StoresNoTemp(Generated(lines, idTypes, false).code)
    decreases |lines|
  {
    if lines != [] {
      var init, last := lines[..|lines| - 1], lines[|lines| - 1];
      TempsNeverStored(init, idTypes);
      var g := Generated(init, idTypes, false);
      var e := LineCode(ReadLine(last), g.resident, g.idTypes, false);
      assert lines == init + [last];
      GeneratedSnoc(init, last, idTypes, false, g, e);
      LineStoresNoTemp(ReadLine(last), g.resident, g.idTypes);
      var c := g.code + e.code;
      forall k | 0 <= k < |c| && c[k].Store?
        ensures !StartsWith(c[k].name, "temp")
      {
        if k >= |g.code| { assert c[k] == e.code[k - |g.code|]; }
      }
    }
  }

  // ---------------------------------------------------------------------------
  // Reading back the lines the intermediate code generator writes

  /** A written-back line is read as its two sides. */
  lemma ReadAssignLine(lhs: string, rhs: string)
    requires '=' !in lhs && Trimmed(lhs) && Trimmed(rhs)
    ensures ReadLine(Optimizer.AssignLine(lhs, rhs)) == ReadAssignment(lhs, rhs)
  {
    Optimizer.SplitAssignLine(lhs, rhs);
  }

  /** In `l o r` the first operator character is `o`, when `l` holds none. */
  lemma FirstOperatorAt(l: string, o: string, r: string)
    requires forall k :: 0 <= k < |l| ==> l[k] !in ArithChars
    requires |o| == 1 && o[0] in ArithChars
    ensures IndexOfAny(l + " " + o + " " + r, ArithChars) == |l| + 1
  {
    var rhs := l + " " + o + " " + r;
    var k := IndexOfAny(rhs, ArithChars);
    assert rhs[|l| + 1] == o[0];
    forall j | 0 <= j <= |l|
      ensures rhs[j] !in ArithChars
    {
      if j < |l| { assert rhs[j] == l[j]; } else { assert rhs[j] == ' '; }
    }
  }

  /** A value `l o r` splits at the operator when `l` holds none. */
  lemma SplitAtOperator(d: string, l: string, o: string, r: string)
    requires |l| > 0 && Trimmed(l) && forall k :: 0 <= k < |l| ==> l[k] !in ArithChars
    requires |o| == 1 && o[0] in ArithChars
    requires |r| > 0 && Trimmed(r)
    ensures ReadAssignment(d, l + " " + o + " " + r) == Binary(d, o[0], l, r)
  {
    var rhs := l + " " + o + " " + r;
    FirstOperatorAt(l, o, r);
    var k := |l| + 1;
    assert rhs[k] == o[0];
    assert rhs[..k] == "" + l + " ";
    StripPadded("", l, " ");
    assert rhs[k + 1..] == " " + r + "";
    StripPadded(" ", r, "");
  }

  /** The assembler reads an intermediate binary line back into its parts. */
  lemma ReadBinaryLine(d: string, l: string, o: string, r: string)
    requires '=' !in d && Trimmed(d)
    requires |l| > 0 && Trimmed(l) && forall k :: 0 <= k < |l| ==> l[k] !in ArithChars
    requires |o| == 1 && o[0] in ArithChars
    requires |r| > 0 && Trimmed(r)
    ensures ReadLine(Icg.Render(Icg.Binary(d, l, o, r))) == Binary(d, o[0], l, r)
  {
    var rhs := l + " " + o + " " + r;
    assert Icg.Render(Icg.Binary(d, l, o, r)) == Optimizer.AssignLine(d, rhs);
    assert rhs[0] == l[0] && rhs[|rhs| - 1] == r[|r| - 1];
    ReadAssignLine(d, rhs);
    SplitAtOperator(d, l, o, r);
  }

  /** A run of digits is left as it is by parse_operand. */
  lemma NumeralParsed(v: string)
    requires |v| > 0 && AllDigits(v)
    ensures ParseOperand(v) == v
  {
    assert IsDigit(v[0]) && IsDigit(v[|v| - 1]);
    assert !IsSpace(v[0]) && !IsSpace(v[|v| - 1]);
    StripTrimmed(v);
    NumeralNotPromotion(v);
    assert Unwrap(v) == v;
  }

  /** A run of digits is a literal. */
  lemma NumeralLiteral(v: string)
    requires |v| > 0 && AllDigits(v)
    ensures IsLiteral(v)
  {
    assert '.' !in v by {
      forall k | 0 <= k < |v| ensures v[k] != '.' { assert IsDigit(v[k]); }
    }
    assert IndexOf(v, '.') == |v|;
    DotsDigits(v);
  }

  /** A literal of digits reads as an INT literal. */
  lemma NumeralOperand(v: string, idTypes: map<string, NumType>)
    requires |v| > 0 && AllDigits(v)
    ensures ReadOperand(v, idTypes) == Operand(v, true, INT)
  {
    NumeralParsed(v);
    NumeralLiteral(v);
    TypeOfInt(v, idTypes);
  }

  /** A name is left as it is by parse_operand. */
  lemma NameParsed(v: string)
    requires |v| > 0 && forall k :: 0 <= k < |v| ==> IsWordChar(v[k])
    ensures ParseOperand(v) == v
  {
    assert IsWordChar(v[0]) && IsWordChar(v[|v| - 1]);
    assert !IsSpace(v[0]) && !IsSpace(v[|v| - 1]);
    StripTrimmed(v);
    NameNotPromotion(v);
    assert Unwrap(v) == v;
  }

  /** A name that starts with a letter or `_` is not a literal. */
  lemma NameNotLiteral(v: string)
    requires |v| > 0 && (IsLetter(v[0]) || v[0] == '_')
    requires forall k :: 0 <= k < |v| ==> IsWordChar(v[k])
    ensures !IsLiteral(v)
  {
    forall k | 0 <= k < |v| ensures v[k] != '.' { assert IsWordChar(v[k]); }
    assert IndexOf(v, '.') == |v|;
    assert !IsDigit(v[0]);
    DotsDigits(v);
  }

  /** A name reads as a memory operand of its recorded type. */
  lemma NameOperand(v: string, idTypes: map<string, NumType>)
    requires |v| > 0 && (IsLetter(v[0]) || v[0] == '_')
    requires forall k :: 0 <= k < |v| ==> IsWordChar(v[k])
    ensures ReadOperand(v, idTypes) == Operand(v, false, if v in idTypes then idTypes[v] else INT)
  {
    NameParsed(v);
    NameNotLiteral(v);
    TypeOfName(v, idTypes);
  }

  // ---------------------------------------------------------------------------
  // A program that shows the difference

  /** The parts of an intermediate binary line the assembler splits back
      out: a destination without `=`, a left operand without an operator. */
  predicate BinaryParts(d: string, l: string, o: string, r: string) {
    '=' !in d && Trimmed(d)
    && |l| > 0 && Trimmed(l) && (forall k :: 0 <= k < |l| ==> l[k] !in ArithChars)
    && |o| == 1 && o[0] in ArithChars
    && |r| > 0 && Trimmed(r)
  }

  predicate Numeral(s: string) { |s| > 0 && AllDigits(s) }

  predicate Name(s: string) { |s| > 0 && IsLetter(s[0]) && forall k :: 0 <= k < |s| ==> IsWordChar(s[k]) }

  /** A temporary set to two numerals: load, compute, keep in R1. */
  lemma NumeralsLine(d: string, a: string, o: string, b: string, resident: Option<string>, m: map<string, NumType>)
    requires BinaryParts(d, a, o, b) && Numeral(a) && Numeral(b) && StartsWith(d, "temp")
    requires resident != Some(a) && resident != Some(b)
    ensures LineCode(ReadLine(Icg.Render(Icg.Binary(d, a, o, b))), resident, m, false)
      == Gen([Load(false, R1, Imm(a)), Calc(ArithOf(o[0]), false, R1, InReg(R1), Imm(b))], Some(d), m[d := INT])
  {
    ReadBinaryLine(d, a, o, b);
    NumeralOperand(a, m);
    NumeralOperand(b, m);
    var x, y := Operand(a, true, INT), Operand(b, true, INT);
    var line := Icg.Render(Icg.Binary(d, a, o, b));
    assert LineCode(ReadLine(line), resident, m, false) == BinaryLine(d, o[0], x, y, resident, m, false);
    assert Ordered(o[0], x, y, resident) == (x, y);
    var c := BinaryCode(ArithOf(o[0]), false, x, y, resident);
    assert c == [Load(false, R1, Imm(a)), Calc(ArithOf(o[0]), false, R1, InReg(R1), Imm(b))];
    assert BinaryLine(d, o[0], x, y, resident, m, false) == Finish(c, d, INT, m, false);
    assert Finish(c, d, INT, m, false) == Gen(c + [], Some(d), m[d := INT]);
    assert c + [] == c;
  }

  /** The code for two memory operands of type INT, the second resident,
      into a non-temporary: the operands swap and the first is loaded into R2. */
  lemma SwappedCode(d: string, op: char, x: Operand, y: Operand, m: map<string, NumType>)
    requires Commutative(op) && !StartsWith(d, "temp")
    requires !x.lit && !y.lit && x.ty == INT && y.ty == INT && x.text != y.text
    ensures BinaryLine(d, op, x, y, Some(y.text), m, false)
      == Gen([Load(false, R2, Mem(x.text)), Calc(ArithOf(op), false, R1, InReg(R1), InReg(R2)), Store(false, d, R1)], None, m)
  {
    assert Ordered(op, x, y, Some(y.text)) == (y, x);
    var c := BinaryCode(ArithOf(op), false, y, x, Some(y.text));
    assert c == [Load(false, R2, Mem(x.text)), Calc(ArithOf(op), false, R1, InReg(R1), InReg(R2))];
    assert c + [Store(false, d, R1)] == [Load(false, R2, Mem(x.text)), Calc(ArithOf(op), false, R1, InReg(R1), InReg(R2)), Store(false, d, R1)];
  }

  /** A named result of two temporaries, the second resident: the operands
      swap and the first is loaded from memory into R2. */
  lemma TempsLine(d: string, t1: string, o: string, t2: string, m: map<string, NumType>)
    requires BinaryParts(d, t1, o, t2) && Commutative(o[0]) && !StartsWith(d, "temp")
    requires Name(t1) && Name(t2) && t1 != t2
    requires t1 in m && t2 in m && m[t1] == INT && m[t2] == INT
    ensures LineCode(ReadLine(Icg.Render(Icg.Binary(d, t1, o, t2))), Some(t2), m, false)
      == Gen([Load(false, R2, Mem(t1)), Calc(ArithOf(o[0]), false, R1, InReg(R1), InReg(R2)), Store(false, d, R1)], None, m)
  {
    ReadBinaryLine(d, t1, o, t2);
    NameOperand(t1, m);
    NameOperand(t2, m);
    SwappedCode(d, o[0], Operand(t1, false, INT), Operand(t2, false, INT), m);
  }

  /** `t = a o b` with numerals `a`, `b` and a temporary `t`. */
  predicate NumeralSum(i: Icg.Instr) {
    i.Binary? && BinaryParts(i.dst, i.left, i.op, i.right) && Numeral(i.left) && Numeral(i.right)
    && Name(i.dst) && StartsWith(i.dst, "temp")
  }

  /** Two temporaries set from numerals, then a named result combining them
      with `+` or `*`: the shape of `a = (1 + 2) * (3 + 4)`. */
  predicate StaleShape(i1: Icg.Instr, i2: Icg.Instr, i3: Icg.Instr) {
    NumeralSum(i1) && NumeralSum(i2) && i1.dst != i2.dst
    && i3.Binary? && i3.left == i1.dst && i3.right == i2.dst
    && BinaryParts(i3.dst, i3.left, i3.op, i3.right) && Commutative(i3.op[0]) && !StartsWith(i3.dst, "temp")
  }

  function SumCode(i: Icg.Instr): seq<AsmInstr>
    requires i.Binary? && |i.op| > 0
  {
    [Load(false, R1, Imm(i.left)), Calc(ArithOf(i.op[0]), false, R1, InReg(R1), Imm(i.right))]
  }

  /** A numeral never names a temporary. */
  lemma NumeralNotName(a: string, t: string)
    requires Numeral(a) && Name(t)
    ensures a != t
  {
    assert IsDigit(a[0]) && !IsDigit(t[0]);
  }

  lemma FirstSum(i1: Icg.Instr)
    requires NumeralSum(i1)
    ensures LineCode(ReadLine(Icg.Render(i1)), None, map[], false) == Gen(SumCode(i1), Some(i1.dst), map[i1.dst := INT])
  {
    NumeralsLine(i1.dst, i1.left, i1.op, i1.right, None, map[]);
  }

  lemma SecondSum(i1: Icg.Instr, i2: Icg.Instr)
    requires NumeralSum(i1) && NumeralSum(i2)
    ensures LineCode(ReadLine(Icg.Render(i2)), Some(i1.dst), map[i1.dst := INT], false)
      == Gen(SumCode(i2), Some(i2.dst), map[i1.dst := INT, i2.dst := INT])
  {
    NumeralNotName(i2.left, i1.dst);
    NumeralNotName(i2.right, i1.dst);
    NumeralsLine(i2.dst, i2.left, i2.op, i2.right, Some(i1.dst), map[i1.dst := INT]);
  }

  /** The code of one, two and three lines, line by line. */
  lemma GeneratedOne(l1: string, idTypes: map<string, NumType>, writeThrough: bool, g1: Gen)
    requires LineCode(ReadLine(l1), None, idTypes, writeThrough) == g1
    ensures Generated([l1], idTypes, writeThrough) == g1
  {
    assert [l1][..0] == [];
    assert Generated([], idTypes, writeThrough) == Gen([], None, idTypes);
    assert [] + g1.code == g1.code;
  }

  lemma GeneratedTwo(l1: string, l2: string, idTypes: map<string, NumType>, writeThrough: bool, g1: Gen, g2: Gen)
    requires LineCode(ReadLine(l1), None, idTypes, writeThrough) == g1
    requires LineCode(ReadLine(l2), g1.resident, g1.idTypes, writeThrough) == g2
    ensures Generated([l1, l2], idTypes, writeThrough) == Gen(g1.code + g2.code, g2.resident, g2.idTypes)
  {
    GeneratedOne(l1, idTypes, writeThrough, g1);
    GeneratedSnoc([l1], l2, idTypes, writeThrough, g1, g2);
    assert [l1] + [l2] == [l1, l2];
  }

  lemma GeneratedThree(l1: string, l2: string, l3: string, idTypes: map<string, NumType>, writeThrough: bool,
                       g1: Gen, g2: Gen, g3: Gen)
    requires LineCode(ReadLine(l1), None, idTypes, writeThrough) == g1
    requires LineCode(ReadLine(l2), g1.resident, g1.idTypes, writeThrough) == g2
    requires LineCode(ReadLine(l3), g2.resident, g2.idTypes, writeThrough) == g3
    ensures Generated([l1, l2, l3], idTypes, writeThrough) == Gen(g1.code + g2.code + g3.code, g3.resident, g3.idTypes)
  {
    GeneratedTwo(l1, l2, idTypes, writeThrough, g1, g2);
    GeneratedSnoc([l1, l2], l3, idTypes, writeThrough, Gen(g1.code + g2.code, g2.resident, g2.idTypes), g3);
    assert [l1, l2] + [l3] == [l1, l2, l3];
  }

  /** As written, the program's code: the second sum replaces the first in
      R1, and the first is then loaded from memory it never reached. */
  lemma StaleCode(i1: Icg.Instr, i2: Icg.Instr, i3: Icg.Instr)
    requires StaleShape(i1, i2, i3)
    ensures Generated([Icg.Render(i1), Icg.Render(i2), Icg.Render(i3)], map[], false).code
      == SumCode(i1) + SumCode(i2)
         + [Load(false, R2, Mem(i1.dst)), Calc(ArithOf(i3.op[0]), false, R1, InReg(R1), InReg(R2)), Store(false, i3.dst, R1)]
  {
    var m2: map<string, NumType> := map[i1.dst := INT, i2.dst := INT];
    FirstSum(i1);
    SecondSum(i1, i2);
    TempsLine(i3.dst, i1.dst, i3.op, i2.dst, m2);
    GeneratedThree(Icg.Render(i1), Icg.Render(i2), Icg.Render(i3), map[], false,
      Gen(SumCode(i1), Some(i1.dst), map[i1.dst := INT]),
      Gen(SumCode(i2), Some(i2.dst), m2),
      Gen([Load(false, R2, Mem(i1.dst)), Calc(ArithOf(i3.op[0]), false, R1, InReg(R1), InReg(R2)), Store(false, i3.dst, R1)], None, m2));
  }

  lemma RunSum(m: Machine, i: Icg.Instr)
    requires i.Binary? && |i.op| > 0
    ensures Run(m, SumCode(i)) == m.(r1 := Apply(ArithOf(i.op[0]), Lit(i.left), Lit(i.right)))
  {
    var c := SumCode(i);
    RunShort(m, c[0], c[1], c[1]);
  }

  /** After the two sums: the second in R1, memory untouched. */
  lemma RunSums(i1: Icg.Instr, i2: Icg.Instr)
    requires i1.Binary? && |i1.op| > 0 && i2.Binary? && |i2.op| > 0
    ensures Run(Machine(0, 0, map[]), SumCode(i1) + SumCode(i2))
      == Machine(Apply(ArithOf(i2.op[0]), Lit(i2.left), Lit(i2.right)), 0, map[])
  {
    var m0 := Machine(0, 0, map[]);
    RunAppend(m0, SumCode(i1), SumCode(i2));
    RunSum(m0, i1);
    RunSum(Run(m0, SumCode(i1)), i2);
  }

  /** The product, run after the sums: `temp1` is read from memory as 0. */
  lemma RunProduct(t1: string, op: char, d: string, v2: int)
    ensures var c3 := [Load(false, R2, Mem(t1)), Calc(ArithOf(op), false, R1, InReg(R1), InReg(R2)), Store(false, d, R1)];
      Run(Machine(v2, 0, map[]), c3).mem == map[d := Apply(ArithOf(op), v2, 0)]
  {
    var c3 := [Load(false, R2, Mem(t1)), Calc(ArithOf(op), false, R1, InReg(R1), InReg(R2)), Store(false, d, R1)];
    RunShort(Machine(v2, 0, map[]), c3[0], c3[1], c3[2]);
  }

  /** What the as-written code leaves in memory: only the named result,
      computed from the second sum and a `temp1` read as 0. */
  lemma StaleRun(i1: Icg.Instr, i2: Icg.Instr, i3: Icg.Instr)
    requires StaleShape(i1, i2, i3)
    ensures Run(Machine(0, 0, map[]), Generated([Icg.Render(i1), Icg.Render(i2), Icg.Render(i3)], map[], false).code).mem
      == map[i3.dst := Apply(ArithOf(i3.op[0]), Apply(ArithOf(i2.op[0]), Lit(i2.left), Lit(i2.right)), 0)]
  {
    StaleCode(i1, i2, i3);
    var v2 := Apply(ArithOf(i2.op[0]), Lit(i2.left), Lit(i2.right));
    var c3 := [Load(false, R2, Mem(i1.dst)), Calc(ArithOf(i3.op[0]), false, R1, InReg(R1), InReg(R2)), Store(false, i3.dst, R1)];
    RunAppend(Machine(0, 0, map[]), SumCode(i1) + SumCode(i2), c3);
    RunSums(i1, i2);
    RunProduct(i1.dst, i3.op[0], i3.dst, v2);
  }

  lemma EvalSnoc(mem: map<string, int>, lines: seq<string>, line: string)
    ensures Eval(mem, lines + [line]) == EvalLine(Eval(mem, lines), line)
  {
    assert (lines + [line])[..|lines|] == lines;
  }

  lemma EvalThree(mem: map<string, int>, l1: string, l2: string, l3: string)
    ensures Eval(mem, [l1, l2, l3]) == EvalLine(EvalLine(EvalLine(mem, l1), l2), l3)
  {
    EvalSnoc(mem, [], l1);
    assert [] + [l1] == [l1];
    EvalSnoc(mem, [l1], l2);
    assert [l1] + [l2] == [l1, l2];
    EvalSnoc(mem, [l1, l2], l3);
    assert [l1, l2] + [l3] == [l1, l2, l3];
  }

  lemma NumeralValue(a: string, mem: map<string, int>)
    requires Numeral(a)
    ensures ValueOf(a, mem) == Lit(a)
  {
    NumeralParsed(a);
    NumeralLiteral(a);
  }

  lemma NameValue(t: string, mem: map<string, int>)
    requires Name(t)
    ensures ValueOf(t, mem) == Get(mem, t)
  {
    NameParsed(t);
    NameNotLiteral(t);
  }

  lemma NumeralsValue(mem: map<string, int>, d: string, o: char, a: string, b: string)
    requires Numeral(a) && Numeral(b)
    ensures EvalForm(mem, Binary(d, o, a, b)) == mem[d := Apply(ArithOf(o), Lit(a), Lit(b))]
  {
    NumeralValue(a, mem);
    NumeralValue(b, mem);
  }

  lemma NamesFormValue(mem: map<string, int>, d: string, o: char, t1: string, t2: string)
    requires Name(t1) && Name(t2)
    ensures EvalForm(mem, Binary(d, o, t1, t2)) == mem[d := Apply(ArithOf(o), Get(mem, t1), Get(mem, t2))]
  {
    NameValue(t1, mem);
    NameValue(t2, mem);
  }

  lemma SumValue(i: Icg.Instr, mem: map<string, int>)
    requires NumeralSum(i)
    ensures EvalLine(mem, Icg.Render(i)) == mem[i.dst := Apply(ArithOf(i.op[0]), Lit(i.left), Lit(i.right))]
  {
    ReadBinaryLine(i.dst, i.left, i.op, i.right);
    NumeralsValue(mem, i.dst, i.op[0], i.left, i.right);
  }

  lemma NamesValue(i: Icg.Instr, mem: map<string, int>)
    requires i.Binary? && BinaryParts(i.dst, i.left, i.op, i.right) && Name(i.left) && Name(i.right)
    ensures EvalLine(mem, Icg.Render(i)) == mem[i.dst := Apply(ArithOf(i.op[0]), Get(mem, i.left), Get(mem, i.right))]
  {
    ReadBinaryLine(i.dst, i.left, i.op, i.right);
    NamesFormValue(mem, i.dst, i.op[0], i.left, i.right);
  }

  /** What the program means: both temporaries and the combined result. */
  lemma StaleEval(i1: Icg.Instr, i2: Icg.Instr, i3: Icg.Instr)
    requires StaleShape(i1, i2, i3)
    ensures var v1 := Apply(ArithOf(i1.op[0]), Lit(i1.left), Lit(i1.right));
      var v2 := Apply(ArithOf(i2.op[0]), Lit(i2.left), Lit(i2.right));
      Eval(map[], [Icg.Render(i1), Icg.Render(i2), Icg.Render(i3)])
        == map[i1.dst := v1, i2.dst := v2, i3.dst := Apply(ArithOf(i3.op[0]), v1, v2)]
  {
    EvalThree(map[], Icg.Render(i1), Icg.Render(i2), Icg.Render(i3));
    SumValue(i1, map[]);
    var mem1 := EvalLine(map[], Icg.Render(i1));
    SumValue(i2, mem1);
    NamesValue(i3, EvalLine(mem1, Icg.Render(i2)));
  }

  // ---------------------------------------------------------------------------
  // One such program

  /** `a = (1 + 2) * (3 + 4)` in three-address form, with `a` as `ID1`. */
  const FirstSum1: Icg.Instr := Icg.Binary("temp1", "1", "+", "2")
  const SecondSum1: Icg.Instr := Icg.Binary("temp2", "3", "+", "4")
  const Product1: Icg.Instr := Icg.Binary("ID1", "temp1", "*", "temp2")
  const TempExample: seq<string> := [Icg.Render(FirstSum1), Icg.Render(SecondSum1), Icg.Render(Product1)]

  lemma ExampleSums()
    ensures NumeralSum(FirstSum1) && NumeralSum(SecondSum1)
  {
  }

  lemma ExampleShape()
    ensures StaleShape(FirstSum1, SecondSum1, Product1)
  {
    ExampleSums();
  }

  /** A one-digit literal's value. */
  lemma LitDigit(c: char)
    requires IsDigit(c)
    ensures Lit([c]) == c as int - '0' as int
  {
    assert '.' !in [c];
    assert IndexOf([c], '.') == 1;
    assert [c][..1] == [c];
    assert AllDigits([c]);
    assert [c][..0] == [];
    assert DigitsValue([c]) == DigitsValue([]) * 10 + (c as int - '0' as int);
  }

  lemma ExampleValues()
    ensures Lit("1") == 1 && Lit("2") == 2 && Lit("3") == 3 && Lit("4") == 4
  {
    LitDigit('1');
    LitDigit('2');
    LitDigit('3');
    LitDigit('4');
  }

  /** As written, `ID1` ends up 0: `temp1` was never stored, so the product
      reads 0 for it, where the three-address code gives 3 * 7 = 21. */
  lemma TempLost()
    ensures Get(Run(Machine(0, 0, map[]), Generated(TempExample, map[], false).code).mem, "ID1") == 0
    ensures Get(Eval(map[], TempExample), "ID1") == 21
  {
    ExampleShape();
    ExampleValues();
    StaleRun(FirstSum1, SecondSum1, Product1);
    StaleEval(FirstSum1, SecondSum1, Product1);
  }

  /** Corrected: with every result stored, `ID1` ends up 21. */
  lemma TempKept()
    ensures Get(Run(Machine(0, 0, map[]), Generated(TempExample, map[], true).code).mem, "ID1") == 21
  {
    WriteThroughCorrect(TempExample, map[], map[]);
    ExampleShape();
    ExampleValues();
    StaleEval(FirstSum1, SecondSum1, Product1);
  }
}
