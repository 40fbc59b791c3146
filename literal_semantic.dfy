/** The older type coercion of semantic/semantic.py: it knows no declared
    types, so only float literals call for a conversion and only integer
    literals are wrapped. */
module LiteralSemantic {
  import opened Trees
  import opened Semantic
  import Lexer

  function LiteralHasFloat(t: Tree): bool {
    match t
    case Nil => false
    case Node(v, l, r) => IsFloatLiteral(v) || LiteralHasFloat(l) || LiteralHasFloat(r)
  }

  function LiteralConvert(t: Tree, needsConversion: bool): Tree {
    match t
    case Nil => Nil
    case Node(v, l, r) =>
      var l', r' := LiteralConvert(l, needsConversion), LiteralConvert(r, needsConversion);
      if needsConversion && v !in Operators && IsIntValue(v) then Promotion(FloatText(v), v)
      else Node(v, l', r')
  }

  function LiteralAnalysis(t: Tree): Tree {
    LiteralConvert(t, LiteralHasFloat(t))
  }

  /** The older version is the typed one with no declared types. */
  lemma {:induction false} LiteralHasFloatUntyped(t: Tree)
    ensures LiteralHasFloat(t) == HasFloat(t, map[])
  {
    match t
    case Nil =>
    case Node(_, l, r) =>
      LiteralHasFloatUntyped(l);
      LiteralHasFloatUntyped(r);
  }

  lemma {:induction false} LiteralConvertUntyped(t: Tree, needsConversion: bool)
    ensures LiteralConvert(t, needsConversion) == Convert(t, needsConversion, map[])
  {
    match t
    case Nil =>
    case Node(_, l, r) =>
      LiteralConvertUntyped(l, needsConversion);
      LiteralConvertUntyped(r, needsConversion);
  }

  lemma LiteralAnalysisUntyped(t: Tree)
    ensures LiteralAnalysis(t) == SemanticAnalysis(t, map[])
  {
    LiteralHasFloatUntyped(t);
    LiteralConvertUntyped(t, LiteralHasFloat(t));
  }

  /** A leaf holding an identifier or a float literal is never wrapped, since
      is_int_value fails on it; a leaf holding an integer literal is wrapped exactly when the tree
      holds a float literal. */
  lemma TokenLeaves(t: Lexer.Token, needsConversion: bool)
    requires Lexer.WellFormed(t)
    ensures t.kind == Lexer.IDENTIFIER ==> LiteralConvert(Leaf(t.value), needsConversion) == Leaf(t.value)
    ensures t.kind == Lexer.FLOAT ==> LiteralConvert(Leaf(t.value), needsConversion) == Leaf(t.value)
    ensures t.kind == Lexer.INT ==>
      LiteralConvert(Leaf(t.value), needsConversion) ==
        if needsConversion then Promotion(FloatText(t.value), t.value) else Leaf(t.value)
  {
    TokenClasses(t);
  }

  /** With no float literal the tree comes back unchanged; with one, no
      integer literal is left unwrapped. */
  lemma LiteralAnalysisEffect(t: Tree)
    ensures !LiteralHasFloat(t) ==> LiteralAnalysis(t) == t
    ensures LiteralHasFloat(t) ==> NoBareInt(LiteralAnalysis(t), map[])
  {
    LiteralAnalysisUntyped(t);
    LiteralHasFloatUntyped(t);
    if LiteralHasFloat(t) {
      ConvertWrapsAll(t, map[]);
    } else {
      ConvertOff(t, map[]);
    }
  }

  /** Only integer literals are wrapped: every promotion in the result holds
      one, so float literals and identifiers stay bare. */
  lemma LiteralAnalysisWrapsOnlyInts(t: Tree)
    requires ParserShaped(t)
    ensures WrapsOnlyInts(LiteralAnalysis(t), map[])
  {
    LiteralAnalysisUntyped(t);
    LiteralHasFloatUntyped(t);
    ConvertWrapsOnlyInts(t, LiteralHasFloat(t), map[]);
  }
}
