/** What the type coercion of Compiler/semantic/semantic.py does to the target
    of an assignment, and the code generated from it.

    add_type_conversions wraps every INT identifier of a tree that holds a
    float, the identifier left of `=` included. The code generator then turns
    the wrapped target into a fresh temporary, so the assignment writes that
    temporary and the variable itself is never assigned. The corrected
    analysis converts only the value side of an assignment. */
module AssignmentTarget {
  import opened Strings
  import opened Trees
  import opened Semantic
  import Icg

  function Assignment(x: string, rhs: Tree): Tree {
    Node("=", Leaf(x), rhs)
  }

  /** `temp<n>` is a temporary's name. */
  lemma TempIsTemp(n: nat)
    ensures Icg.IsTemp(Icg.Temp(n))
  {
    var w := Icg.Temp(n);
    assert w[..4] == "temp";
    assert w[4..] == NatToString(n);
  }

  /** As written: when the target is an INT identifier and the value holds a
      float, the code first copies the target into `temp<c>`, and the final
      instruction assigns to that temporary rather than to the variable. */
  lemma TargetLost(x: string, rhs: Tree, idTypes: map<string, NumType>, counter: nat, idMap: map<string, string>)
    requires IsIntId(x, idTypes) && x !in Semantic.Operators && x != Promote
    requires HasFloat(rhs, idTypes)
    ensures var g := Icg.Generated(SemanticAnalysis(Assignment(x, rhs), idTypes), counter, idMap);
      && |g.code| >= 2
      && g.code[0] == Icg.ToFloat(Icg.Temp(counter), Rename(x, idMap))
      && g.code[|g.code| - 1].Assign?
      && g.code[|g.code| - 1].dst == Icg.Temp(counter)
      && Icg.IsTemp(g.code[|g.code| - 1].dst)
  {
    var t := Assignment(x, rhs);
    var target := Convert(Leaf(x), true, idTypes);
    var value := Convert(rhs, true, idTypes);
    assert HasFloat(t, idTypes);
    assert target == Promotion(x, x);
    assert SemanticAnalysis(t, idTypes) == Node("=", target, value);
    var a := Icg.Generated(target, counter, idMap);
    assert Icg.Generated(Leaf(x), counter, idMap) == Icg.Block(Rename(x, idMap), [], counter);
    assert a == Icg.Block(Icg.Temp(counter), [Icg.ToFloat(Icg.Temp(counter), Rename(x, idMap))], counter + 1);
    var b := Icg.Generated(value, a.next, idMap);
    assert Icg.Generated(Node("=", target, value), counter, idMap) == Icg.Combined("=", a, b);
    TempIsTemp(counter);
  }

  /** The smallest input that shows it: `x = x + 1.5` with `x` declared INT
      gives `temp1 = int_to_float(ID1)`, `temp2 = int_to_float(ID1)`,
      `temp3 = temp2 + 1.5`, `temp1 = temp3`: ID1 is read but never written. */
  lemma TargetLostExample()
    ensures var t := Assignment("x", Node("+", Leaf("x"), Leaf("1.5")));
      var g := Icg.Generated(SemanticAnalysis(t, map["x" := INT]), 1, map["x" := "ID1"]);
      g.code == [Icg.ToFloat("temp1", "ID1"), Icg.ToFloat("temp2", "ID1"),
                 Icg.Binary("temp3", "temp2", "+", "1.5"), Icg.Assign("temp1", "temp3")]
  {
    var ty, m := map["x" := INT], map["x" := "ID1"];
    var rhs := Node("+", Leaf("x"), Leaf("1.5"));
    var t := Assignment("x", rhs);
    assert IsFloatLiteral("1.5") by {
      assert multiset("1.5")['.'] == 1;
    }
    assert HasFloat(rhs, ty);
    var x := Promotion("x", "x");
    var value := Node("+", x, Leaf("1.5"));
    assert Convert(rhs, true, ty) == value by {
      assert !IsIntValue("1.5");
    }
    assert SemanticAnalysis(t, ty) == Node("=", x, value);
    var p1 := Icg.Block("temp1", [Icg.ToFloat("temp1", "ID1")], 2);
    var p2 := Icg.Block("temp2", [Icg.ToFloat("temp2", "ID1")], 3);
    assert Icg.Temp(1) == "temp1" by { assert NatToString(1) == "1"; }
    assert Icg.Temp(2) == "temp2" by { assert NatToString(2) == "2"; }
    assert Icg.Temp(3) == "temp3" by { assert NatToString(3) == "3"; }
    assert Icg.Generated(Leaf("x"), 1, m) == Icg.Block("ID1", [], 1);
    assert Icg.Generated(x, 1, m) == p1;
    assert Icg.Generated(Leaf("x"), 2, m) == Icg.Block("ID1", [], 2);
    assert Icg.Generated(x, 2, m) == p2;
    var b := Icg.Generated(value, 2, m);
    assert b == Icg.Combined("+", p2, Icg.Block("1.5", [], 3));
    assert b.code == [Icg.ToFloat("temp2", "ID1"), Icg.Binary("temp3", "temp2", "+", "1.5")];
    var g := Icg.Generated(Node("=", x, value), 1, m);
    assert g == Icg.Combined("=", p1, b);
  }

  /** Corrected: the value side is converted (whether a conversion is needed
      is still decided on the whole tree); the target is left as it is. */
  function AnalysisKeepingTarget(t: Tree, idTypes: map<string, NumType>): (r: Tree)
  {
    match t
    case Node("=", l, rhs) => Node("=", l, Convert(rhs, HasFloat(t, idTypes), idTypes))
    case _ => SemanticAnalysis(t, idTypes)
  }

  /** With the corrected analysis the final instruction assigns to the
      variable itself, and the value it assigns is the value side's code. */
  lemma TargetKept(x: string, rhs: Tree, idTypes: map<string, NumType>, counter: nat, idMap: map<string, string>)
    requires x != Promote
    ensures var t := Assignment(x, rhs);
      var g := Icg.Generated(AnalysisKeepingTarget(t, idTypes), counter, idMap);
      var b := Icg.Generated(Convert(rhs, HasFloat(t, idTypes), idTypes), counter, idMap);
      && |g.code| > 0
      && g.code[|g.code| - 1] == Icg.Assign(Rename(x, idMap), b.operand)
      && g.code[..|g.code| - 1] == b.code
  {
    var t := Assignment(x, rhs);
    var value := Convert(rhs, HasFloat(t, idTypes), idTypes);
    var a := Icg.Generated(Leaf(x), counter, idMap);
    assert a == Icg.Block(Rename(x, idMap), [], counter);
    var b := Icg.Generated(value, counter, idMap);
    assert Icg.Generated(Node("=", Leaf(x), value), counter, idMap) == Icg.Combined("=", a, b);
    assert a.code + b.code + [Icg.Assign(a.operand, b.operand)] == b.code + [Icg.Assign(a.operand, b.operand)];
  }

  /** The corrected analysis changes nothing else: away from an assignment it
      is the source's analysis, and the value side gets every promotion it
      would have got. */
  lemma KeepingTargetAgrees(t: Tree, idTypes: map<string, NumType>)
    ensures !(t.Node? && t.value == "=") ==> AnalysisKeepingTarget(t, idTypes) == SemanticAnalysis(t, idTypes)
    ensures t.Node? && t.value == "=" ==>
      AnalysisKeepingTarget(t, idTypes).right == SemanticAnalysis(t, idTypes).right
  {
  }
}
