/** The two-register code generator of Compiler/assembly/assembly.py. It reads
    the three-address lines one by one, keeps the temporary whose value is in
    R1, puts a literal of `+` or `*` on the right and a resident operand on the
    left, picks `F` mnemonics when an operand is FLOAT, and stores a result
    to memory only when its destination is not a temporary. */
module Assembly {
  import opened Wrappers
  import opened Strings
  import opened Trees
  import Lexer
  import Semantic
  import Optimizer

  // ---------------------------------------------------------------------------
  // The target instructions

  datatype Reg = R1 | R2

  datatype Arith = ADD | SUB | MUL | DIV

  /** An instruction operand: a register, an immediate `#v` or a memory name. */
  datatype Src = InReg(reg: Reg) | Imm(text: string) | Mem(name: string)

  datatype AsmInstr =
    | Load(isFloat: bool, dst: Reg, src: Src)                   // LOAD[F] dst, src
    | Calc(op: Arith, isFloat: bool, dst: Reg, a: Src, b: Src)  // ADD[F] dst, a, b
    | Store(isFloat: bool, name: string, from: Reg)             // STR[F] name, from

  function Suffix(isFloat: bool): string { if isFloat then "F" else "" }

  function RegName(r: Reg): string { if r == R1 then "R1" else "R2" }

  function SrcText(s: Src): string {
    match s
    case InReg(r) => RegName(r)
    case Imm(t) => "#" + t
    case Mem(n) => n
  }

  function ArithName(a: Arith): string {
    match a
    case ADD => "ADD"
    case SUB => "SUB"
    case MUL => "MUL"
    case DIV => "DIV"
  }

  /** The line the source appends for an instruction. */
  function Render(i: AsmInstr): string {
    match i
    case Load(f, r, s) => "LOAD" + Suffix(f) + " " + RegName(r) + ", " + SrcText(s)
    case Calc(a, f, r, x, y) => ArithName(a) + Suffix(f) + " " + RegName(r) + ", " + SrcText(x) + ", " + SrcText(y)
    case Store(f, n, r) => "STR" + Suffix(f) + " " + n + ", " + RegName(r)
  }

  function RenderAll(code: seq<AsmInstr>): (lines: seq<string>)
    ensures |lines| == |code|
    ensures forall k :: 0 <= k < |code| ==> lines[k] == Render(code[k])
  {
    seq(|code|, k requires 0 <= k < |code| => Render(code[k]))
  }

  // ---------------------------------------------------------------------------
  // get_type, parse_operand, is_literal

  const Wrapper: string := "int_to_float("

  /** The number of dots in `v` when every character is a digit or a dot,
      and None otherwise. */
  function Dots(v: string): Option<nat>
    decreases |v|
  {
    if v == [] then Some(0)
    else if !IsDigit(v[0]) && v[0] != '.' then None
    else match Dots(v[1..])
      case None => None
      case Some(n) => Some(if v[0] == '.' then n + 1 else n)
  }

  /** `float(v)` succeeds, for the digit-and-dot text the pipeline produces:
      at most one dot and at least one digit. */
  predicate FloatReads(v: string) {
    v != "." && (Dots(v) == Some(0) || Dots(v) == Some(1)) && |v| > 0
  }

  /** `int(v)` succeeds: a non-empty run of digits. */
  predicate IntReads(v: string) {
    |v| > 0 && Dots(v) == Some(0)
  }

  /** The type get_type gives an operand: a promotion is FLOAT, a numeral with
      a dot that `float` reads is FLOAT, a numeral `int` reads is INT, a name
      takes its recorded type, and anything else is INT. */
  function TypeOf(operand: string, idTypes: map<string, NumType>): NumType {
    Classify(Strip(operand), idTypes)
  }

  /** get_type's tests, on the stripped operand. */
  function Classify(v: string, idTypes: map<string, NumType>): NumType {
    if StartsWith(v, Wrapper) then FLOAT
    else if '.' in v && FloatReads(v) then FLOAT
    else if '.' !in v && IntReads(v) then INT
    else if v in idTypes then idTypes[v]
    else INT
  }

  /** The last `c` of `s` at index `lo` or later. */
  function LastIndex(s: string, c: char, lo: nat): (k: Option<nat>)
    ensures k.Some? ==> lo <= k.value < |s| && s[k.value] == c
    ensures k.Some? ==> forall j :: k.value < j < |s| ==> s[j] != c
    ensures k.None? ==> forall j :: lo <= j < |s| ==> s[j] != c
    decreases |s|
  {
    if |s| <= lo then None
    else if s[|s| - 1] == c then Some(|s| - 1)
    else LastIndex(s[..|s| - 1], c, lo)
  }

  /** parse_operand: `re.match(r'int_to_float\((.+)\)', v)` on the stripped
      operand. The greedy group runs from after the `(` to the last `)` that
      leaves it non-empty, within the first line; without a match the
      stripped operand is returned. */
  function ParseOperand(operand: string): string {
    Unwrap(Strip(operand))
  }

  /** parse_operand's match, on the stripped operand. */
  function Unwrap(v: string): string {
    if !StartsWith(v, Wrapper) then v
    else
      var line := v[..|Wrapper| + IndexOf(v[|Wrapper|..], '\n')];
      match LastIndex(line, ')', |Wrapper| + 1)
      case Some(k) => v[|Wrapper|..k]
      case None => v
  }

  /** `op.replace('.', '', 1)`. */
  function RemoveFirstDot(s: string): string {
    var i := IndexOf(s, '.');
    if i < |s| then s[..i] + s[i + 1..] else s
  }

  /** is_literal: what is left after dropping the first dot is a non-empty
      run of digits (`isdigit`). */
  predicate IsLiteral(op: string) {
    var d := RemoveFirstDot(op);
    |d| > 0 && Dots(d) == Some(0)
  }

  // ---------------------------------------------------------------------------
  // What generate reads from a line

  const ArithChars: set<char> := {'+', '-', '*', '/'}

  function ArithOf(c: char): Arith {
    if c == '+' then ADD else if c == '-' then SUB else if c == '*' then MUL else DIV
  }

  datatype LineForm =
    | NoAssign
    | Simple(lhs: string, raw: string)
    | Binary(lhs: string, op: char, raw1: string, raw2: string)

  /** Both sides of the first `=`, stripped; an operator character in the
      value makes it a binary operation split at the first such character. */
  function ReadLine(line: string): LineForm {
    if '=' !in line then NoAssign
    else
      var (lhs, rhs) := Optimizer.SplitAssign(line);
      ReadAssignment(lhs, rhs)
  }

  /** The assignment `lhs = rhs` with both sides already stripped. */
  function ReadAssignment(lhs: string, rhs: string): (form: LineForm)
    ensures form.Binary? || form == Simple(lhs, rhs)
    ensures form.Binary? <==> exists k :: 0 <= k < |rhs| && rhs[k] in ArithChars
  {
    var k := IndexOfAny(rhs, ArithChars);
    if k < |rhs| then Binary(lhs, rhs[k], Strip(rhs[..k]), Strip(rhs[k + 1..]))
    else Simple(lhs, rhs)
  }

  /** An operand as the generator handles it: the text parse_operand gives,
      whether is_literal holds of that text, and the type get_type gives the
      raw operand. */
  datatype Operand = Operand(text: string, lit: bool, ty: NumType)

  function ReadOperand(raw: string, idTypes: map<string, NumType>): Operand {
    var v := ParseOperand(raw);
    Operand(v, IsLiteral(v), TypeOf(raw, idTypes))
  }

  // ---------------------------------------------------------------------------
  // The code for one line

  /** What the loop carries: the code so far, the temporary in R1 and the
      types known so far. */
  datatype Gen = Gen(code: seq<AsmInstr>, resident: Option<string>, idTypes: map<string, NumType>)

  predicate InR1(x: Operand, resident: Option<string>) { resident == Some(x.text) }

  function SrcOf(x: Operand): Src { if x.lit then Imm(x.text) else Mem(x.text) }

  function LoadOf(r: Reg, x: Operand): AsmInstr { Load(x.ty == FLOAT, r, SrcOf(x)) }

  predicate Commutative(op: char) { op == '+' || op == '*' }

  /** The first swap, for `+` and `*` only: a literal left of a non-literal
      moves to the right. */
  function LiteralRight(op: char, x: Operand, y: Operand): (Operand, Operand) {
    if Commutative(op) && x.lit && !y.lit then (y, x) else (x, y)
  }

  /** The second swap, for `+` and `*` only: a resident right operand moves
      to the left of a non-resident one. */
  function ResidentLeft(op: char, p: (Operand, Operand), resident: Option<string>): (Operand, Operand) {
    if Commutative(op) && InR1(p.1, resident) && !InR1(p.0, resident) then (p.1, p.0) else p
  }

  /** Both swaps. Only `+` and `*` reorder; afterwards a resident right
      operand has a resident partner on the left, and a literal stays on the
      left of a non-literal only as the operand in R1. */
  function Ordered(op: char, x: Operand, y: Operand, resident: Option<string>): (p: (Operand, Operand))
    ensures p == (x, y) || p == (y, x)
    ensures !Commutative(op) ==> p == (x, y)
    ensures Commutative(op) && InR1(p.1, resident) ==> InR1(p.0, resident)
    ensures Commutative(op) && p.0.lit && !p.1.lit ==> InR1(p.0, resident) && !InR1(p.1, resident)
  {
    ResidentLeft(op, LiteralRight(op, x, y), resident)
  }

  /** The three cases of a binary operation: the left operand in R1, the right
      operand in R1, or neither. */
  function BinaryCode(a: Arith, f: bool, x: Operand, y: Operand, resident: Option<string>): seq<AsmInstr> {
    if InR1(x, resident) then
      if y.lit then [Calc(a, f, R1, InReg(R1), Imm(y.text))]
      else [LoadOf(R2, y), Calc(a, f, R1, InReg(R1), InReg(R2))]
    else if InR1(y, resident) then
      if x.lit then [Calc(a, f, R1, Imm(x.text), InReg(R1))]
      else [LoadOf(R2, x), Calc(a, f, R1, InReg(R2), InReg(R1))]
    else if x.lit && !y.lit then [LoadOf(R1, y), Calc(a, f, R1, Imm(x.text), InReg(R1))]
    else if y.lit then [LoadOf(R1, x), Calc(a, f, R1, InReg(R1), Imm(y.text))]
    else [LoadOf(R1, x), LoadOf(R2, y), Calc(a, f, R1, InReg(R1), InReg(R2))]
  }

  /** The result in R1 goes to its destination: a temporary becomes resident
      and has its type recorded, anything else is stored and clears R1's
      owner. With `writeThrough` a temporary is stored as well. */
  function Finish(code: seq<AsmInstr>, lhs: string, ty: NumType, idTypes: map<string, NumType>, writeThrough: bool): Gen {
    if StartsWith(lhs, "temp") then
      Gen(code + (if writeThrough then [Store(ty == FLOAT, lhs, R1)] else []), Some(lhs), idTypes[lhs := ty])
    else Gen(code + [Store(ty == FLOAT, lhs, R1)], None, idTypes)
  }

  /** A binary operation with its operands read: `F` when either is FLOAT,
      the swaps, the code for the case, then the result's destination. */
  function BinaryLine(lhs: string, op: char, x: Operand, y: Operand, resident: Option<string>,
                      idTypes: map<string, NumType>, writeThrough: bool): Gen
  {
    var f := x.ty == FLOAT || y.ty == FLOAT;
    var (x', y') := Ordered(op, x, y, resident);
    Finish(BinaryCode(ArithOf(op), f, x', y', resident), lhs, if f then FLOAT else INT, idTypes, writeThrough)
  }

  /** A simple assignment with its operand read: a load unless the operand
      is already in R1, then the destination. */
  function SimpleLine(lhs: string, x: Operand, resident: Option<string>, idTypes: map<string, NumType>, writeThrough: bool): Gen {
    Finish(if InR1(x, resident) then [] else [LoadOf(R1, x)], lhs, x.ty, idTypes, writeThrough)
  }

  /** The code of one line, the temporary then in R1 and the types then known. */
  function LineCode(form: LineForm, resident: Option<string>, idTypes: map<string, NumType>, writeThrough: bool): Gen {
    match form
    case NoAssign => Gen([], resident, idTypes)
    case Binary(lhs, op, raw1, raw2) =>
      BinaryLine(lhs, op, ReadOperand(raw1, idTypes), ReadOperand(raw2, idTypes), resident, idTypes, writeThrough)
    case Simple(lhs, raw) => SimpleLine(lhs, ReadOperand(raw, idTypes), resident, idTypes, writeThrough)
  }

  /** The loop of generate over `lines`, starting from no resident temporary.
      The source's generator is the one without write-through. */
  function Generated(lines: seq<string>, idTypes: map<string, NumType>, writeThrough: bool): Gen
    decreases |lines|
  {
    if lines == [] then Gen([], None, idTypes)
    else
      var g := Generated(lines[..|lines| - 1], idTypes, writeThrough);
      var e := LineCode(ReadLine(lines[|lines| - 1]), g.resident, g.idTypes, writeThrough);
      Gen(g.code + e.code, e.resident, e.idTypes)
  }

  // ---------------------------------------------------------------------------
  // The generator object

  class AssemblyGenerator {
    var instructions: seq<string>
    var idTypes: map<string, NumType>
    var registers: seq<Reg>

    constructor(idTypes: map<string, NumType>)
      ensures instructions == [] && this.idTypes == idTypes && registers == [R1, R2]
    {
      instructions := [];
      this.idTypes := idTypes;
      registers := [R1, R2];
    }

    /** generate: the code of every line in turn; the types of the
        temporaries met are added to `idTypes`. */
    method Generate(icgInstructions: seq<string>) returns (asmCode: seq<string>)
      modifies this
      ensures var g := Generated(icgInstructions, old(idTypes), false);
        asmCode == RenderAll(g.code) && idTypes == g.idTypes
      ensures instructions == old(instructions) && registers == old(registers)
    {
      asmCode := [];
      var currentTempInR1: Option<string> := None;
      ghost var start := idTypes;
      ghost var g := Generated([], start, false);
      var i := 0;
      assert icgInstructions[..i] == [];
      while i < |icgInstructions|
        invariant 0 <= i <= |icgInstructions|
        invariant g == Generated(icgInstructions[..i], start, false)
        invariant asmCode == RenderAll(g.code) && currentTempInR1 == g.resident && idTypes == g.idTypes
        invariant instructions == old(instructions) && registers == old(registers)
      {
        var instr := icgInstructions[i];
        var lines;
        ghost var e := LineCode(ReadLine(instr), g.resident, g.idTypes, false);
        lines, currentTempInR1, idTypes := EmitLine(instr, currentTempInR1, idTypes);
        RenderCat(g.code, e.code);
        asmCode := asmCode + RenderAll(lines);
        Optimizer.TakeSnoc(icgInstructions, i);
        Optimizer.InitOfSnoc(icgInstructions[..i], instr);
        g := Gen(g.code + e.code, e.resident, e.idTypes);
        i := i + 1;
      }
      Optimizer.Whole(icgInstructions);
    }
  }

  /** The body of generate's loop for one line: the instructions it appends,
      the temporary then in R1 and the types then known. */
  method EmitLine(instr: string, currentTempInR1: Option<string>, idTypes: map<string, NumType>)
    returns (code: seq<AsmInstr>, resident: Option<string>, idTypes': map<string, NumType>)
    ensures var e := LineCode(ReadLine(instr), currentTempInR1, idTypes, false);
      code == e.code && resident == e.resident && idTypes' == e.idTypes
  {
    code, resident, idTypes' := [], currentTempInR1, idTypes;
    if '=' !in instr {
      return;
    }
    var (lhs, rhs) := Optimizer.SplitAssign(instr);
    // The first operator character, if any, splits the value in two.
    var form := ReadAssignment(lhs, rhs);
    match form
    case Binary(target, op, op1Raw, op2Raw) =>
      var x, y := ReadOperand(op1Raw, idTypes), ReadOperand(op2Raw, idTypes);
      code, resident, idTypes' := EmitBinary(target, op, x, y, currentTempInR1, idTypes);
      assert form == ReadLine(instr);
      assert LineCode(form, currentTempInR1, idTypes, false) == BinaryLine(target, op, x, y, currentTempInR1, idTypes, false);
    case Simple(target, opRaw) =>
      var x := ReadOperand(opRaw, idTypes);
      code, resident, idTypes' := EmitSimple(target, x, currentTempInR1, idTypes);
      assert form == ReadLine(instr);
      assert LineCode(form, currentTempInR1, idTypes, false) == SimpleLine(target, x, currentTempInR1, idTypes, false);
  }

  /** A binary operation `lhs = op1 op op2` over its read operands. */
  method EmitBinary(lhs: string, op: char, x: Operand, y: Operand, currentTempInR1: Option<string>, idTypes: map<string, NumType>)
    returns (code: seq<AsmInstr>, resident: Option<string>, idTypes': map<string, NumType>)
    ensures var e := BinaryLine(lhs, op, x, y, currentTempInR1, idTypes, false);
      code == e.code && resident == e.resident && idTypes' == e.idTypes
  {
    var isFloatOp := x.ty == FLOAT || y.ty == FLOAT;
    var asm := OperationCode(op, isFloatOp, x, y, currentTempInR1);
    ghost var e := Finish(asm, lhs, if isFloatOp then FLOAT else INT, idTypes, false);
    if StartsWith(lhs, "temp") {
      resident, idTypes' := Some(lhs), idTypes[lhs := if isFloatOp then FLOAT else INT];
      assert idTypes' == e.idTypes;
    } else {
      asm := asm + [Store(isFloatOp, lhs, R1)];
      resident, idTypes' := None, idTypes;
      assert idTypes' == e.idTypes;
    }
    code := asm;
  }

  /** The instructions of a binary operation: the operand swaps, then one of
      the three cases. */
  method OperationCode(op: char, isFloatOp: bool, x: Operand, y: Operand, currentTempInR1: Option<string>)
    returns (asm: seq<AsmInstr>)
    ensures var (x', y') := Ordered(op, x, y, currentTempInR1);
      asm == BinaryCode(ArithOf(op), isFloatOp, x', y', currentTempInR1)
  {
    var op1, op1IsLit, type1 := x.text, x.lit, x.ty;
    var op2, op2IsLit, type2 := y.text, y.lit, y.ty;
    var instrName := ArithOf(op);
    var isCommutative := op == '+' || op == '*';
    if isCommutative && op1IsLit && !op2IsLit {
      op1, op2 := op2, op1;
      op1IsLit, op2IsLit := op2IsLit, op1IsLit;
      type1, type2 := type2, type1;
    }
    if isCommutative && currentTempInR1 == Some(op2) && currentTempInR1 != Some(op1) {
      op1, op2 := op2, op1;
      op1IsLit, op2IsLit := op2IsLit, op1IsLit;
      type1, type2 := type2, type1;
    }
    if currentTempInR1 == Some(op1) {
      if op2IsLit {
        asm := [Calc(instrName, isFloatOp, R1, InReg(R1), Imm(op2))];
      } else {
        asm := [Load(type2 == FLOAT, R2, Mem(op2)), Calc(instrName, isFloatOp, R1, InReg(R1), InReg(R2))];
      }
    } else if currentTempInR1 == Some(op2) {
      if op1IsLit {
        asm := [Calc(instrName, isFloatOp, R1, Imm(op1), InReg(R1))];
      } else {
        asm := [Load(type1 == FLOAT, R2, Mem(op1)), Calc(instrName, isFloatOp, R1, InReg(R2), InReg(R1))];
      }
    } else {
      if op1IsLit && !op2IsLit {
        asm := [Load(type2 == FLOAT, R1, Mem(op2)), Calc(instrName, isFloatOp, R1, Imm(op1), InReg(R1))];
      } else {
        asm := [Load(type1 == FLOAT, R1, if op1IsLit then Imm(op1) else Mem(op1))];
        if op2IsLit {
          asm := asm + [Calc(instrName, isFloatOp, R1, InReg(R1), Imm(op2))];
        } else {
          asm := asm + [Load(type2 == FLOAT, R2, Mem(op2)), Calc(instrName, isFloatOp, R1, InReg(R1), InReg(R2))];
        }
      }
    }
  }

  /** A simple assignment `lhs = op` over its read operand. */
  method EmitSimple(lhs: string, x: Operand, currentTempInR1: Option<string>, idTypes: map<string, NumType>)
    returns (code: seq<AsmInstr>, resident: Option<string>, idTypes': map<string, NumType>)
    ensures var e := SimpleLine(lhs, x, currentTempInR1, idTypes, false);
      code == e.code && resident == e.resident && idTypes' == e.idTypes
  {
    var asm: seq<AsmInstr> := [];
    if currentTempInR1 != Some(x.text) {
      asm := [Load(x.ty == FLOAT, R1, if x.lit then Imm(x.text) else Mem(x.text))];
    }
    ghost var e := Finish(asm, lhs, x.ty, idTypes, false);
    if StartsWith(lhs, "temp") {
      resident, idTypes' := Some(lhs), idTypes[lhs := x.ty];
      assert idTypes' == e.idTypes;
    } else {
      asm := asm + [Store(x.ty == FLOAT, lhs, R1)];
      resident, idTypes' := None, idTypes;
      assert idTypes' == e.idTypes;
    }
    code := asm;
  }

  /** generate_assembly: a fresh generator over the given types. */
  method GenerateAssembly(instructions: seq<string>, idTypes: map<string, NumType>) returns (asm: seq<string>)
    ensures asm == RenderAll(Generated(instructions, idTypes, false).code)
  {
    var generator := new AssemblyGenerator(idTypes);
    asm := generator.Generate(instructions);
  }

  /** Printing distributes over concatenation. */
  lemma RenderCat(a: seq<AsmInstr>, b: seq<AsmInstr>)
    ensures RenderAll(a + b) == RenderAll(a) + RenderAll(b)
  {
    var x, ra, rb := RenderAll(a + b), RenderAll(a), RenderAll(b);
    assert |x| == |ra + rb|;
    forall k | 0 <= k < |x| ensures x[k] == (ra + rb)[k] {
      if k < |a| {
        assert (a + b)[k] == a[k];
        assert x[k] == Render(a[k]) == ra[k];
      } else {
        assert (a + b)[k] == b[k - |a|];
        assert x[k] == Render(b[k - |a|]) == rb[k - |a|];
      }
    }
  }
}
