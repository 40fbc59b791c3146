/** Type coercion of Compiler/semantic/semantic.py: when the tree holds a float
    (a float literal, or an identifier the user declared FLOAT), every integer
    literal and every identifier declared INT is wrapped in an `int_to_float`
    promotion. */
module Semantic {
  import opened Strings
  import Lexer
  import opened Trees

  /** The values `has_float` and `add_type_conversions` never treat as operands. */
  const Operators: set<string> := {"+", "-", "*", "/", "="}

  /** The node value that marks a promotion. */
  const Promote: string := "int_to_float"

  // ---------------------------------------------------------------------------
  // Reading values

  /** Text that Python's `float()` accepts, restricted to the digit-and-dot
      strings the lexer produces: one dot at most and at least one digit. */
  predicate NumberText(v: string) {
    |v| > 0 && v != "." && multiset(v)['.'] <= 1 && forall k :: 0 <= k < |v| ==> Lexer.IsNumberChar(v[k])
  }

  /** `float(v)` succeeds and `v` has a dot: a float literal. */
  predicate IsFloatLiteral(v: string) {
    v !in Operators && NumberText(v) && '.' in v
  }

  /** is_int_value: no dot, and `int(v)` succeeds. */
  predicate IsIntValue(v: string) {
    '.' !in v && |v| > 0 && AllDigits(v)
  }

  predicate IsIntId(v: string, idTypes: map<string, NumType>) {
    v in idTypes && idTypes[v] == INT
  }

  /** The test `has_float` makes at one node. */
  predicate FloatNode(v: string, idTypes: map<string, NumType>) {
    (v in idTypes && idTypes[v] == FLOAT) || IsFloatLiteral(v)
  }

  /** `str(float(v))` for a string of digits: the number without leading
      zeros, then `.0`. */
  function FloatText(v: string): (r: string)
    requires AllDigits(v)
  {
    NatToString(DigitsValue(v)) + ".0"
  }

  // ---------------------------------------------------------------------------
  // has_float, add_type_conversions, semantic_analysis

  function HasFloat(t: Tree, idTypes: map<string, NumType>): bool {
    match t
    case Nil => false
    case Node(v, l, r) => FloatNode(v, idTypes) || HasFloat(l, idTypes) || HasFloat(r, idTypes)
  }

  /** The promotion shape: `Node(outer, left=Node("int_to_float", left=Node(v)))`. */
  function Promotion(outer: string, v: string): Tree {
    Node(outer, Node(Promote, Leaf(v), Nil), Nil)
  }

  /** Whether a node wraps its operand, the test the code generator makes. */
  predicate IsPromotion(t: Tree) {
    t.Node? && t.left.Node? && t.left.value == Promote
  }

  /** Whether a non-operator value is to be wrapped. */
  predicate Wraps(v: string, idTypes: map<string, NumType>) {
    v !in Operators && (IsIntValue(v) || IsIntId(v, idTypes))
  }

  /** add_type_conversions: children are converted first; a node to be wrapped
      is replaced by a fresh promotion whose outer value is the identifier's
      own name, or the literal's float text. The source assigns the converted
      children into the input nodes; this value model returns a new tree. */
  function Convert(t: Tree, needsConversion: bool, idTypes: map<string, NumType>): (r: Tree)
    ensures t.Nil? <==> r.Nil?
  {
    match t
    case Nil => Nil
    case Node(v, l, r) =>
      var l', r' := Convert(l, needsConversion, idTypes), Convert(r, needsConversion, idTypes);
      if needsConversion && Wraps(v, idTypes) then
        Promotion(if IsIntId(v, idTypes) then v else FloatText(v), v)
      else Node(v, l', r')
  }

  function SemanticAnalysis(t: Tree, idTypes: map<string, NumType>): Tree {
    Convert(t, HasFloat(t, idTypes), idTypes)
  }

  // ---------------------------------------------------------------------------
  // What has_float decides

  /** Some value of the sequence passes the float test. */
  predicate SomeFloat(vs: seq<string>, idTypes: map<string, NumType>) {
    exists k :: 0 <= k < |vs| && FloatNode(vs[k], idTypes)
  }

  lemma SomeFloatConcat(a: seq<string>, b: seq<string>, idTypes: map<string, NumType>)
    ensures SomeFloat(a + b, idTypes) <==> SomeFloat(a, idTypes) || SomeFloat(b, idTypes)
  {
    if SomeFloat(a + b, idTypes) {
      var k :| 0 <= k < |a + b| && FloatNode((a + b)[k], idTypes);
      if k >= |a| {
        assert (a + b)[k] == b[k - |a|];
      } else {
        assert (a + b)[k] == a[k];
      }
    }
    if SomeFloat(a, idTypes) {
      var k :| 0 <= k < |a| && FloatNode(a[k], idTypes);
      assert (a + b)[k] == a[k];
    }
    if SomeFloat(b, idTypes) {
      var k :| 0 <= k < |b| && FloatNode(b[k], idTypes);
      assert (a + b)[|a| + k] == b[k];
    }
  }

  /** has_float holds exactly when some node of the tree is a float literal or
      an identifier declared FLOAT. */
  lemma {:induction false} HasFloatSomeNode(t: Tree, idTypes: map<string, NumType>)
    ensures HasFloat(t, idTypes) <==> SomeFloat(Values(t), idTypes)
  {
    match t
    case Nil =>
    case Node(v, l, r) =>
      HasFloatSomeNode(l, idTypes);
      HasFloatSomeNode(r, idTypes);
      assert Values(t) == [v] + Values(l) + Values(r);
      SomeFloatConcat([v] + Values(l), Values(r), idTypes);
      SomeFloatConcat([v], Values(l), idTypes);
      assert SomeFloat([v], idTypes) <==> FloatNode(v, idTypes) by {
        assert [v][0] == v;
      }
  }

  /** On the lexer's tokens, is_int_value picks out exactly the INT tokens and
      the float test exactly the FLOAT tokens; identifiers are neither. */
  lemma TokenClasses(t: Lexer.Token)
    requires Lexer.WellFormed(t)
    ensures IsIntValue(t.value) <==> t.kind == Lexer.INT
    ensures IsFloatLiteral(t.value) <==> t.kind == Lexer.FLOAT
  {
    var v := t.value;
    if t.kind == Lexer.IDENTIFIER {
      assert !IsDigit(v[0]) && v[0] != '.';
      assert !Lexer.IsNumberChar(v[0]);
    } else if t.kind == Lexer.INT {
      DigitsHaveNoDot(v);
    } else if t.kind == Lexer.FLOAT {
      assert '.' in v by {
        assert multiset(v)['.'] > 0;
      }
    } else if t.kind == Lexer.OPERATOR {
      assert v[0] in "+-*/";
      assert !Lexer.IsNumberChar(v[0]);
    } else {
      assert !Lexer.IsNumberChar(v[0]);
    }
  }

  lemma DigitsHaveNoDot(s: string)
    requires AllDigits(s)
    ensures '.' !in s
  {
    forall k | 0 <= k < |s| ensures s[k] != '.' {
      assert IsDigit(s[k]);
    }
  }

  /** The float text of an integer literal is a float literal of the same
      value: its digits before `.0` read as the literal's number. */
  lemma FloatTextValue(v: string)
    requires AllDigits(v)
    ensures IsFloatLiteral(FloatText(v))
    ensures var f := FloatText(v); AllDigits(f[..|f| - 2]) && DigitsValue(f[..|f| - 2]) == DigitsValue(v)
  {
    var n := NatToString(DigitsValue(v));
    var f := FloatText(v);
    assert f[..|f| - 2] == n;
    NatToStringRoundTrip(DigitsValue(v));
    assert f == n + ['.', '0'];
    assert multiset(f)['.'] == multiset(n)['.'] + 1;
    DigitsHaveNoDot(n);
    assert multiset(n)['.'] == 0;
    assert f[|f| - 2] == '.';
    assert f != "." && f !in Operators;
  }

  // ---------------------------------------------------------------------------
  // What add_type_conversions and semantic_analysis do

  /** Without a float in the tree nothing is replaced. */
  lemma {:induction false} ConvertOff(t: Tree, idTypes: map<string, NumType>)
    ensures Convert(t, false, idTypes) == t
  {
    match t
    case Nil =>
    case Node(_, l, r) =>
      ConvertOff(l, idTypes);
      ConvertOff(r, idTypes);
  }

  lemma NoFloatUnchanged(t: Tree, idTypes: map<string, NumType>)
    requires !HasFloat(t, idTypes)
    ensures SemanticAnalysis(t, idTypes) == t
  {
    ConvertOff(t, idTypes);
  }

  /** The operator skeleton of a tree: its operator nodes, with every operand
      subtree cut off. */
  function Skeleton(t: Tree): Tree {
    match t
    case Nil => Nil
    case Node(v, l, r) => if v in Operators then Node(v, Skeleton(l), Skeleton(r)) else Nil
  }

  /** Operator nodes are never replaced: the conversion keeps the operator
      skeleton, whether or not it wraps anything. */
  lemma {:induction false} OperatorsKept(t: Tree, needsConversion: bool, idTypes: map<string, NumType>)
    ensures Skeleton(Convert(t, needsConversion, idTypes)) == Skeleton(t)
  {
    match t
    case Nil =>
    case Node(v, l, r) =>
      OperatorsKept(l, needsConversion, idTypes);
      OperatorsKept(r, needsConversion, idTypes);
      if needsConversion && Wraps(v, idTypes) && !IsIntId(v, idTypes) {
        FloatTextValue(v);
      }
  }

  /** No operand is left unwrapped: outside promotions, every non-operator node
      of a converted tree is neither an integer literal nor an INT identifier. */
  predicate NoBareInt(t: Tree, idTypes: map<string, NumType>) {
    match t
    case Nil => true
    case Node(v, l, r) =>
      IsPromotion(t) || (!Wraps(v, idTypes) && NoBareInt(l, idTypes) && NoBareInt(r, idTypes))
  }

  lemma {:induction false} ConvertWrapsAll(t: Tree, idTypes: map<string, NumType>)
    ensures NoBareInt(Convert(t, true, idTypes), idTypes)
  {
    match t
    case Nil =>
    case Node(v, l, r) =>
      ConvertWrapsAll(l, idTypes);
      ConvertWrapsAll(r, idTypes);
  }

  /** Only what is to be wrapped is wrapped: every promotion holds an integer
      literal or an INT identifier, so float literals, FLOAT identifiers and
      undeclared names stay bare. */
  predicate WrapsOnlyInts(t: Tree, idTypes: map<string, NumType>) {
    match t
    case Nil => true
    case Node(v, l, r) =>
      if IsPromotion(t) then l.left.Node? && Wraps(l.left.value, idTypes)
      else WrapsOnlyInts(l, idTypes) && WrapsOnlyInts(r, idTypes)
  }

  /** The converse of ConvertWrapsAll: whatever the flag, the conversion wraps
      nothing but integer literals and INT identifiers. */
  lemma {:induction false} ConvertWrapsOnlyInts(t: Tree, needsConversion: bool, idTypes: map<string, NumType>)
    requires ParserShaped(t)
    ensures WrapsOnlyInts(Convert(t, needsConversion, idTypes), idTypes)
  {
    match t
    case Nil =>
    case Node(v, l, r) =>
      ConvertWrapsOnlyInts(l, needsConversion, idTypes);
      ConvertWrapsOnlyInts(r, needsConversion, idTypes);
      if l.Node? {
        ConvertedRoot(l, needsConversion, idTypes);
      }
  }

  /** Drops every promotion, leaving the wrapped operand. */
  function Unwrap(t: Tree): Tree {
    match t
    case Nil => Nil
    case Node(v, l, r) => if IsPromotion(t) then Unwrap(l.left) else Node(v, Unwrap(l), Unwrap(r))
  }

  /** Every operand is a leaf and no node is named like a promotion: what the
      parser builds from the lexer's tokens. */
  predicate ParserShaped(t: Tree) {
    match t
    case Nil => true
    case Node(v, l, r) =>
      v != Promote && (v !in Operators ==> l.Nil? && r.Nil?) && ParserShaped(l) && ParserShaped(r)
  }

  /** Dropping the promotions again gives back the tree the conversion started
      from: each wrapped node is exactly the original operand. */
  lemma {:induction false} ConvertUnwraps(t: Tree, needsConversion: bool, idTypes: map<string, NumType>)
    requires ParserShaped(t)
    ensures Unwrap(Convert(t, needsConversion, idTypes)) == t
  {
    match t
    case Nil =>
    case Node(v, l, r) =>
      ConvertUnwraps(l, needsConversion, idTypes);
      ConvertUnwraps(r, needsConversion, idTypes);
      if l.Node? {
        ConvertedRoot(l, needsConversion, idTypes);
      }
  }

  /** A converted operand never looks like a promotion marker. */
  lemma ConvertedRoot(t: Tree, needsConversion: bool, idTypes: map<string, NumType>)
    requires t.Node? && t.value != Promote
    ensures Convert(t, needsConversion, idTypes).value != Promote
  {
    if needsConversion && Wraps(t.value, idTypes) && !IsIntId(t.value, idTypes) {
      var f := FloatText(t.value);
      assert f[|f| - 1] == '0';
      assert Promote[|Promote| - 1] == 't';
    }
  }
}
