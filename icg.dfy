/** Three-address code generation, Compiler/icg/icg.py: a post-order walk of
    the (converted) tree that emits one instruction per operator node and per
    promotion, each into a fresh temporary `temp<n>`. */
module Icg {
  import opened Strings
  import opened Trees
  import Semantic

  /** One instruction, before it is printed. */
  datatype Instr =
    | ToFloat(dst: string, src: string)                          // dst = int_to_float(src)
    | Binary(dst: string, left: string, op: string, right: string) // dst = left op right
    | Assign(dst: string, src: string)                           // dst = src

  function Render(i: Instr): string {
    match i
    case ToFloat(d, s) => d + " = int_to_float(" + s + ")"
    case Binary(d, l, o, r) => d + " = " + l + " " + o + " " + r
    case Assign(d, s) => d + " = " + s
  }

  function RenderAll(code: seq<Instr>): (lines: seq<string>)
    ensures |lines| == |code|
    ensures forall k :: 0 <= k < |code| ==> lines[k] == Render(code[k])
  {
    seq(|code|, k requires 0 <= k < |code| => Render(code[k]))
  }

  /** The names an instruction reads. */
  function Reads(i: Instr): set<string> {
    match i
    case ToFloat(_, s) => {s}
    case Binary(_, l, _, r) => {l, r}
    case Assign(_, s) => {s}
  }

  /** The names written by a sequence of instructions, in order. */
  function Dsts(code: seq<Instr>): (ds: seq<string>)
    ensures |ds| == |code|
    ensures forall k :: 0 <= k < |code| ==> ds[k] == code[k].dst
  {
    seq(|code|, k requires 0 <= k < |code| => code[k].dst)
  }

  /** The temporaries created, in order: the destinations of the instructions
      that new_temp names. */
  function Created(code: seq<Instr>): seq<string>
    decreases |code|
  {
    if code == [] then []
    else (if code[0].Assign? then [] else [code[0].dst]) + Created(code[1..])
  }

  const Operators: set<string> := {"+", "-", "*", "/"}

  function Temp(n: nat): string {
    "temp" + NatToString(n)
  }

  /** A name of the form `temp<digits>`. */
  predicate IsTemp(x: string) {
    MatchesRun(WordPattern.TempName, x)
  }

  /** `Temp(a)`, ..., `Temp(b - 1)`. */
  function TempRange(a: nat, b: nat): (ts: seq<string>)
    requires a <= b
    ensures |ts| == b - a
    ensures forall k :: 0 <= k < b - a ==> ts[k] == Temp(a + k)
  {
    seq(b - a, k requires 0 <= k < b - a => Temp(a + k))
  }

  // ---------------------------------------------------------------------------
  // generate

  /** What `generate(node)` returns (the operand text that stands for the
      node's value), the instructions it appends, and the counter after it. */
  datatype Block = Block(operand: string, code: seq<Instr>, next: nat)

  function Generated(t: Tree, counter: nat, idMap: map<string, string>): (g: Block)
    ensures g.next >= counter
    decreases t
  {
    match t
    case Nil => Block("None", [], counter)
    case Node(v, l, r) =>
      if l.Node? && l.value == Semantic.Promote then Promoted(Generated(l.left, counter, idMap))
      else if l.Nil? && r.Nil? then Block(Rename(v, idMap), [], counter)
      else if v in Operators || v == "=" then
        var a := Generated(l, counter, idMap);
        Combined(v, a, Generated(r, a.next, idMap))
      else Block(v, [], counter)
  }

  /** A promotion: the operand's block, then its conversion into a new
      temporary. */
  function Promoted(a: Block): (g: Block)
    ensures g.next == a.next + 1
  {
    var tmp := Temp(a.next);
    Block(tmp, a.code + [ToFloat(tmp, a.operand)], a.next + 1)
  }

  /** An operator or assignment node: the left block, the right block, then
      the operation into a new temporary or the copy into the target. */
  function Combined(v: string, a: Block, b: Block): (g: Block)
    ensures g.next >= b.next
  {
    if v in Operators then
      var tmp := Temp(b.next);
      Block(tmp, a.code + b.code + [Binary(tmp, a.operand, v, b.operand)], b.next + 1)
    else Block(a.operand, a.code + b.code + [Assign(a.operand, b.operand)], b.next)
  }

  // ---------------------------------------------------------------------------
  // The generator object

  class IntermediateCodeGenerator {
    var tempCounter: nat
    var instructions: seq<string>
    var idMap: map<string, string>

    constructor(idMap: map<string, string>)
      ensures tempCounter == 1 && instructions == [] && this.idMap == idMap
    {
      tempCounter := 1;
      instructions := [];
      this.idMap := idMap;
    }

    method NewTemp() returns (temp: string)
      modifies this
      ensures temp == Temp(old(tempCounter))
      ensures tempCounter == old(tempCounter) + 1
      ensures instructions == old(instructions) && idMap == old(idMap)
    {
      temp := "temp" + NatToString(tempCounter);
      tempCounter := tempCounter + 1;
    }

    method Generate(node: Tree) returns (operand: string)
      modifies this
      ensures var g := Generated(node, old(tempCounter), old(idMap));
        operand == g.operand && instructions == old(instructions) + RenderAll(g.code) && tempCounter == g.next
      ensures idMap == old(idMap)
      decreases node
    {
      if node.Nil? {
        return "None";
      }
      ghost var start := instructions;
      ghost var a := Generated(node.left, tempCounter, idMap);
      if node.left.Node? && node.left.value == Semantic.Promote {
        ghost var inner' := Generated(node.left.left, tempCounter, idMap);
        var inner := Generate(node.left.left);
        var temp := NewTemp();
        instructions := instructions + [temp + " = int_to_float(" + inner + ")"];
        Appended(start, inner'.code, [], ToFloat(temp, inner));
        return temp;
      }
      if node.left.Nil? && node.right.Nil? {
        return if node.value in idMap then idMap[node.value] else node.value;
      }
      if node.value in Operators {
        var leftVal := Generate(node.left);
        ghost var b := Generated(node.right, tempCounter, idMap);
        var rightVal := Generate(node.right);
        var temp := NewTemp();
        instructions := instructions + [temp + " = " + leftVal + " " + node.value + " " + rightVal];
        Appended(start, a.code, b.code, Binary(temp, leftVal, node.value, rightVal));
        return temp;
      } else if node.value == "=" {
        var leftVal := Generate(node.left);
        ghost var b := Generated(node.right, tempCounter, idMap);
        var rightVal := Generate(node.right);
        instructions := instructions + [leftVal + " = " + rightVal];
        Appended(start, a.code, b.code, Assign(leftVal, rightVal));
        return leftVal;
      }
      return node.value;
    }
  }

  /** Printing distributes over concatenation. */
  lemma RenderCat(a: seq<Instr>, b: seq<Instr>)
    ensures RenderAll(a + b) == RenderAll(a) + RenderAll(b)
  {
    var x, y := RenderAll(a + b), RenderAll(a) + RenderAll(b);
    forall k | 0 <= k < |x| ensures x[k] == y[k] {
      if k < |a| {
        assert (a + b)[k] == a[k];
      } else {
        assert (a + b)[k] == b[k - |a|];
      }
    }
  }

  /** The lines of a generated block, appended one part after the other. */
  lemma Appended(start: seq<string>, a: seq<Instr>, b: seq<Instr>, last: Instr)
    ensures start + RenderAll(a) + RenderAll(b) + [Render(last)] == start + RenderAll(a + b + [last])
  {
    RenderCat(a, b);
    RenderCat(a + b, [last]);
  }

  /** generate_intermediate_code: a fresh generator, so numbering starts again
      at temp1 on every call. */
  method GenerateIntermediateCode(tree: Tree, idMap: map<string, string>) returns (lines: seq<string>)
    ensures lines == RenderAll(Generated(tree, 1, idMap).code)
  {
    var icg := new IntermediateCodeGenerator(idMap);
    var _ := icg.Generate(tree);
    lines := icg.instructions;
  }

  // ---------------------------------------------------------------------------
  // Fresh temporaries

  lemma {:induction false} CreatedCat(a: seq<Instr>, b: seq<Instr>)
    ensures Created(a + b) == Created(a) + Created(b)
    decreases |a|
  {
    if a != [] {
      assert (a + b)[1..] == a[1..] + b;
      CreatedCat(a[1..], b);
    } else {
      assert a + b == b;
    }
  }

  lemma TempRangeCat(a: nat, b: nat, c: nat)
    requires a <= b <= c
    ensures TempRange(a, b) + TempRange(b, c) == TempRange(a, c)
  {
  }

  predicate IsPromotionNode(t: Tree) {
    t.Node? && t.left.Node? && t.left.value == Semantic.Promote
  }

  /** A node that combines the blocks of its two children. */
  predicate IsPairNode(t: Tree) {
    t.Node? && !IsPromotionNode(t) && !(t.left.Nil? && t.right.Nil?) && (t.value in Operators || t.value == "=")
  }

  /** The instructions that take a new temporary create `temp<c>`,
      `temp<c+1>`, ... in the order they are emitted, and the counter ends just
      past the last one: each temporary is defined by exactly one
      instruction. */
  lemma {:induction false} TempsInOrder(t: Tree, counter: nat, idMap: map<string, string>)
    ensures var g := Generated(t, counter, idMap); Created(g.code) == TempRange(counter, g.next)
    decreases t
  {
    if t.Nil? {
    } else if IsPromotionNode(t) {
      var a := Generated(t.left.left, counter, idMap);
      TempsInOrder(t.left.left, counter, idMap);
      CreatedSnoc(a.code, ToFloat(Temp(a.next), a.operand), counter, a.next);
    } else if IsPairNode(t) {
      var a := Generated(t.left, counter, idMap);
      var b := Generated(t.right, a.next, idMap);
      TempsInOrder(t.left, counter, idMap);
      TempsInOrder(t.right, a.next, idMap);
      if t.value in Operators {
        CreatedPair(a.code, b.code, Binary(Temp(b.next), a.operand, t.value, b.operand), counter, a.next, b.next);
      } else {
        CreatedPair(a.code, b.code, Assign(a.operand, b.operand), counter, a.next, b.next);
      }
    } else {
    }
  }

  /** The temporaries of a block and one more instruction that takes the
      next one. */
  lemma CreatedSnoc(a: seq<Instr>, last: Instr, c: nat, n: nat)
    requires c <= n && !last.Assign? && last.dst == Temp(n)
    requires Created(a) == TempRange(c, n)
    ensures Created(a + [last]) == TempRange(c, n + 1)
  {
    CreatedCat(a, [last]);
    assert Created([last]) == [last.dst] + Created([]);
    TempRangeCat(c, n, n + 1);
  }

  /** The temporaries of two consecutive blocks and one more instruction. */
  lemma CreatedPair(a: seq<Instr>, b: seq<Instr>, last: Instr, c: nat, m: nat, n: nat)
    requires c <= m <= n
    requires Created(a) == TempRange(c, m) && Created(b) == TempRange(m, n)
    ensures last.Assign? ==> Created(a + b + [last]) == TempRange(c, n)
    ensures last.dst == Temp(n) && !last.Assign? ==> Created(a + b + [last]) == TempRange(c, n + 1)
  {
    CreatedCat(a, b);
    CreatedCat(a + b, [last]);
    TempRangeCat(c, m, n);
    assert Created([last]) == (if last.Assign? then [] else [last.dst]) + Created([]);
    TempRangeCat(c, n, n + 1);
  }

  lemma TempInjective(a: nat, b: nat)
    ensures Temp(a) == Temp(b) ==> a == b
  {
    if Temp(a) == Temp(b) {
      assert Temp(a)[4..] == NatToString(a);
      assert Temp(b)[4..] == NatToString(b);
      NatToStringInjective(a, b);
    }
  }

  /** No temporary is created twice. */
  lemma TempsFresh(t: Tree, counter: nat, idMap: map<string, string>)
    ensures var cs := Created(Generated(t, counter, idMap).code);
      forall i, j :: 0 <= i < j < |cs| ==> cs[i] != cs[j]
  {
    var cs := Created(Generated(t, counter, idMap).code);
    TempsInOrder(t, counter, idMap);
    forall i, j | 0 <= i < j < |cs| ensures cs[i] != cs[j] {
      TempInjective(counter + i, counter + j);
    }
  }

  // ---------------------------------------------------------------------------
  // Write before read

  /** Every temporary an instruction reads is written by an earlier one. */
  predicate ReadsWritten(code: seq<Instr>)
    decreases |code|
  {
    code == [] ||
    (ReadsWritten(code[..|code| - 1]) &&
     forall x :: x in Reads(code[|code| - 1]) && IsTemp(x) ==> x in Dsts(code[..|code| - 1]))
  }

  lemma DstsCat(a: seq<Instr>, b: seq<Instr>)
    ensures Dsts(a + b) == Dsts(a) + Dsts(b)
  {
  }

  lemma {:induction false} ReadsWrittenCat(a: seq<Instr>, b: seq<Instr>)
    requires ReadsWritten(a) && ReadsWritten(b)
    ensures ReadsWritten(a + b)
    decreases |b|
  {
    if b == [] {
      assert a + b == a;
    } else {
      var b' := b[..|b| - 1];
      ReadsWrittenCat(a, b');
      assert (a + b)[..|a + b| - 1] == a + b';
      assert (a + b)[|a + b| - 1] == b[|b| - 1];
      DstsCat(a, b');
    }
  }

  lemma ReadsWrittenSnoc(code: seq<Instr>, i: Instr)
    requires ReadsWritten(code)
    requires forall x :: x in Reads(i) && IsTemp(x) ==> x in Dsts(code)
    ensures ReadsWritten(code + [i])
  {
    assert (code + [i])[..|code|] == code;
  }

  /** No operand text the generator emits looks like a temporary: a leaf is
      emitted under its id_map name, so a variable spelled `temp<N>` that
      id_map renames is allowed; a promotion's outer value is never emitted. */
  predicate NoTempOperands(t: Tree, idMap: map<string, string>) {
    match t
    case Nil => true
    case Node(v, l, r) =>
      if l.Node? && l.value == Semantic.Promote then NoTempOperands(l.left, idMap)
      else if l.Nil? && r.Nil? then !IsTemp(Rename(v, idMap))
      else if v in Operators || v == "=" then NoTempOperands(l, idMap) && NoTempOperands(r, idMap)
      else !IsTemp(v)
  }

  /** Every temporary used as an operand was defined by an earlier
      instruction, and the temporary a node stands for is defined in its
      block. */
  lemma {:induction false} WriteBeforeRead(t: Tree, counter: nat, idMap: map<string, string>)
    requires NoTempOperands(t, idMap)
    ensures BlockWritten(Generated(t, counter, idMap))
    decreases t
  {
    if t.Nil? {
    } else if IsPromotionNode(t) {
      WriteBeforeRead(t.left.left, counter, idMap);
      PromotedWritten(Generated(t.left.left, counter, idMap));
    } else if IsPairNode(t) {
      var a := Generated(t.left, counter, idMap);
      WriteBeforeRead(t.left, counter, idMap);
      WriteBeforeRead(t.right, a.next, idMap);
      CombinedWritten(t.value, a, Generated(t.right, a.next, idMap));
    } else {
    }
  }

  /** `temp1 = temp1 + 1`, with the variable `temp1` numbered ID1: every
      temporary its code reads was written before. */
  lemma RenamedTempVariable()
    ensures BlockWritten(Generated(Node("=", Leaf("temp1"), Node("+", Leaf("temp1"), Leaf("1"))), 1, map["temp1" := "ID1"]))
  {
    var idMap := map["temp1" := "ID1"];
    assert !IsTemp("ID1") by {
      assert "ID1"[0] != 't';
      assert !MatchesRun(WordPattern.TempName, "ID1");
    }
    assert !IsTemp("1");
    WriteBeforeRead(Node("=", Leaf("temp1"), Node("+", Leaf("temp1"), Leaf("1"))), 1, idMap);
  }

  /** The code of a block reads only temporaries it wrote before, and the
      temporary the block stands for is among those it writes. */
  predicate BlockWritten(g: Block) {
    ReadsWritten(g.code) && (IsTemp(g.operand) ==> g.operand in Dsts(g.code))
  }

  lemma PromotedWritten(a: Block)
    requires BlockWritten(a)
    ensures BlockWritten(Promoted(a))
  {
    var last := ToFloat(Temp(a.next), a.operand);
    ReadsWrittenSnoc(a.code, last);
    DstsCat(a.code, [last]);
  }

  lemma CombinedWritten(v: string, a: Block, b: Block)
    requires BlockWritten(a) && BlockWritten(b)
    ensures BlockWritten(Combined(v, a, b))
  {
    var last;
    if v in Operators {
      last := Binary(Temp(b.next), a.operand, v, b.operand);
    } else {
      last := Assign(a.operand, b.operand);
    }
    ReadsWrittenCat(a.code, b.code);
    DstsCat(a.code, b.code);
    ReadsWrittenSnoc(a.code + b.code, last);
    DstsCat(a.code + b.code, [last]);
  }
}
