/** The error cases and the parenthesis handling of parse_expr and
    build_syntax_tree, proved about the specification functions of module
    Syntax. */
module ParserLaws {
  import opened Wrappers
  import opened Lexer
  import opened Syntax
  import opened Precedence

  // ---------------------------------------------------------------------------
  // build_syntax_tree

  /** The second token is the marker. */
  predicate MarkerSecond(d: Dialect, tokens: seq<Token>) {
    |tokens| >= 2 && ToItem(d, tokens[1]) == Raw(Marker(d))
  }

  /** `x = expr`: a first token that is not the marker, the marker, and at
      least one token after it. */
  predicate Assignment(d: Dialect, tokens: seq<Token>) {
    |tokens| > 2 && MarkerSecond(d, tokens) && ToItem(d, tokens[0]) != Raw(Marker(d))
  }

  /** The outer checks of build_syntax_tree: an empty token list raises; with
      two or more tokens the second must be the marker; a marker with nothing
      after it, or a marker in first place, raises; otherwise the root is the
      marker node over the first entry and the parse of everything after the
      marker, and a single token is parsed on its own. */
  lemma BuildCases(d: Dialect, tokens: seq<Token>)
    ensures tokens == [] ==> Build(d, tokens) == Err(EmptyTokenList)
    ensures |tokens| >= 2 && !MarkerSecond(d, tokens) ==> Build(d, tokens) == Err(ExpectedMarker)
    ensures MarkerSecond(d, tokens) && !Assignment(d, tokens) ==> Build(d, tokens) == Err(InvalidAssignment)
    ensures Assignment(d, tokens) && Parse(Items(d, tokens)[2..]).Err? ==>
      Build(d, tokens) == Err(Parse(Items(d, tokens)[2..]).error)
    ensures Assignment(d, tokens) && Parse(Items(d, tokens)[2..]).Ok? ==>
      Build(d, tokens) == Ok(Bin(Marker(d), ToItem(d, tokens[0]), Parse(Items(d, tokens)[2..]).value))
    ensures |tokens| == 1 ==>
      Build(d, tokens) == if ToItem(d, tokens[0]) == Raw(Marker(d)) then Err(InvalidAssignment)
                          else Parse([ToItem(d, tokens[0])])
  {
    var nodes := Items(d, tokens);
    var m := Marker(d);
    if |tokens| >= 2 && nodes[1] == Raw(m) {
      if nodes[0] == Raw(m) {
        assert FirstMarker(nodes, m) == 0;
      } else {
        assert nodes[1..][0] == Raw(m);
        assert FirstMarker(nodes, m) == 1;
      }
    }
    if |tokens| == 1 {
      assert nodes == [ToItem(d, tokens[0])];
    }
  }

  /** On the lexer's tokens, the marker entry comes exactly from an assignment
      token, in both copies of the parser. */
  lemma MarkerIffAssign(d: Dialect, t: Token)
    requires WellFormed(t)
    ensures ToItem(d, t) == Raw(Marker(d)) <==> t.kind == ASSIGN
  {
    if t.kind == OPERATOR {
      assert t.value[0] in "+-*/";
    }
  }

  /** A single entry parses to itself, except a lone `(`, which is unmatched. */
  lemma ParseSingle(x: Item)
    ensures Parse([x]) == if x == Raw("(") then Err(UnmatchedParentheses) else Ok(x)
  {
    if x != Raw("(") {
      ParensPassNoParens([x], 0);
    }
  }

  // ---------------------------------------------------------------------------
  // Parentheses

  /** No `(` survives anywhere in a tree. */
  predicate NoOpen(x: Item) {
    match x
    case Leaf(_) => true
    case Raw(t) => t != "("
    case Bin(_, l, r) => NoOpen(l) && NoOpen(r)
  }

  /** An entry of the list build_syntax_tree starts from. */
  predicate Plain(x: Item) { x.Leaf? || x.Raw? }

  /** Every tree parse_expr returns from the entries build_syntax_tree makes
      has consumed every `(`: an unmatched one always raises. */
  lemma {:induction false} ParseConsumesParens(l: seq<Item>)
    requires forall k :: 0 <= k < |l| ==> Plain(l[k])
    ensures Parse(l).Ok? ==> NoOpen(Parse(l).value)
    decreases |l|, 1, 0
  {
    if l != [] {
      ParensPassNoOpen(l, 0);
      var p1 := ParensPass(l, 0);
      if p1.Ok? {
        LevelPassNoOpen(p1.value, 1, MulOps);
        var p2 := LevelPass(p1.value, 1, MulOps);
        if p2.Ok? {
          LevelPassNoOpen(p2.value, 1, AddOps);
        }
      }
    }
  }

  /** The parenthesis loop leaves no `(` behind: everything before `i` has been
      looked at, and only the entry at `i` may already be a parsed tree. */
  lemma {:induction false} ParensPassNoOpen(l: seq<Item>, i: nat)
    requires forall k :: 0 <= k < |l| && k < i ==> NoOpen(l[k])
    requires forall k :: i < k < |l| ==> Plain(l[k])
    requires i < |l| ==> Plain(l[i]) || NoOpen(l[i])
    ensures ParensPass(l, i).Ok? ==> forall k :: 0 <= k < |ParensPass(l, i).value| ==> NoOpen(ParensPass(l, i).value[k])
    decreases |l|, 0, |l| - i
  {
    if i < |l| {
      if l[i] == Raw("(") {
        var (j, depth) := MatchEnd(l, i + 1, 1);
        if depth == 0 {
          var inner := l[i + 1..j - 1];
          assert forall k :: 0 <= k < |inner| ==> inner[k] == l[i + 1 + k];
          ParseConsumesParens(inner);
          var sub := Parse(inner);
          if sub.Ok? {
            var l' := l[..i] + [sub.value] + l[j..];
            assert forall k :: 0 <= k < |l'| && k < i ==> l'[k] == l[k];
            assert forall k :: i < k < |l'| ==> l'[k] == l[j + k - i - 1];
            ParensPassNoOpen(l', i);
          }
        }
      } else {
        ParensPassNoOpen(l, i + 1);
      }
    }
  }

  /** Folding operators keeps every entry free of `(`. */
  lemma {:induction false} LevelPassNoOpen(l: seq<Item>, i: nat, ops: set<string>)
    requires forall k :: 0 <= k < |l| ==> NoOpen(l[k])
    ensures LevelPass(l, i, ops).Ok? ==> forall k :: 0 <= k < |LevelPass(l, i, ops).value| ==> NoOpen(LevelPass(l, i, ops).value[k])
    decreases |l|, |l| - i
  {
    if i < |l| {
      if IsRawIn(l[i], ops) {
        if 0 < i < |l| - 1 {
          var l' := l[..i - 1] + [Bin(l[i].text, l[i - 1], l[i + 1])] + l[i + 2..];
          assert forall k :: 0 <= k < |l'| ==> NoOpen(l'[k]) by {
            forall k | 0 <= k < |l'| ensures NoOpen(l'[k]) {
              if k >= i {
                assert l'[k] == l[k + 2];
              }
            }
          }
          LevelPassNoOpen(l', i, ops);
        }
      } else {
        LevelPassNoOpen(l, i + 1, ops);
      }
    }
  }

  /** The parenthesis loop passes over entries that are not `(`. */
  lemma {:induction false} ParensPassSkips(l: seq<Item>, i: nat, k: nat)
    requires i <= k <= |l|
    requires forall q :: i <= q < k ==> l[q] != Raw("(")
    ensures ParensPass(l, i) == ParensPass(l, k)
    decreases k - i
  {
    if i < k {
      ParensPassSkips(l, i + 1, k);
    }
  }

  /** How an entry moves the close-paren scan's depth. */
  function Delta(x: Item): int {
    if x == Raw("(") then 1 else if x == Raw(")") then -1 else 0
  }

  /** The depth a run of entries adds: its `(` count less its `)` count. */
  function Net(s: seq<Item>): int {
    if s == [] then 0 else Net(s[..|s| - 1]) + Delta(s[|s| - 1])
  }

  /** A run whose parentheses pair up: no prefix closes more than it opens,
      and the whole closes all it opens. */
  predicate Balanced(s: seq<Item>) {
    Net(s) == 0 && forall q :: 0 <= q <= |s| ==> Net(s[..q]) >= 0
  }

  /** While the depth stays positive, the close-paren scan only adds up the
      depth of what it passes. */
  lemma {:induction false} MatchEndRun(l: seq<Item>, j: nat, k: nat, depth: int)
    requires j <= k <= |l|
    requires forall q :: j <= q < k ==> depth + Net(l[j..q]) > 0
    ensures MatchEnd(l, j, depth) == MatchEnd(l, k, depth + Net(l[j..k]))
    decreases k - j
  {
    if j < k {
      MatchEndRun(l, j, k - 1, depth);
      MatchEndStep(l, k - 1, depth + Net(l[j..k - 1]));
      NetSnoc(l, j, k);
    } else {
      assert l[j..k] == [];
    }
  }

  /** One step of the scan at a positive depth. */
  lemma MatchEndStep(l: seq<Item>, j: nat, depth: int)
    requires j < |l| && depth > 0
    ensures MatchEnd(l, j, depth) == MatchEnd(l, j + 1, depth + Delta(l[j]))
  {
  }

  /** Net over a slice grown by one entry. */
  lemma NetSnoc(l: seq<Item>, j: nat, k: nat)
    requires j < k <= |l|
    ensures Net(l[j..k]) == Net(l[j..k - 1]) + Delta(l[k - 1])
  {
    assert l[j..k][..k - 1 - j] == l[j..k - 1];
  }

  /** Started just past a `(`, the scan stops just past the `)` that matches
      it: the one whose interior is balanced. */
  lemma MatchEndAtClose(l: seq<Item>, i: nat, j: nat)
    requires i < j < |l| && l[j] == Raw(")") && Balanced(l[i + 1..j])
    ensures MatchEnd(l, i + 1, 1) == (j + 1, 0)
  {
    var start, inner := i + 1, l[i + 1..j];
    forall q | start <= q < j
      ensures 1 + Net(l[start..q]) > 0
    {
      assert l[start..q] == inner[..q - start];
    }
    MatchEndRun(l, start, j, 1);
    assert MatchEnd(l, j, 1) == MatchEnd(l, j + 1, 0);
  }

  /** A `(` that nothing after it closes: the scan runs off the end with the
      depth still positive, and the parse raises "Unmatched parentheses". */
  lemma UnmatchedRejected(pre: seq<Item>, rest: seq<Item>)
    requires forall q :: 0 <= q < |pre| ==> pre[q] != Raw("(")
    requires forall q :: 0 <= q <= |rest| ==> Net(rest[..q]) >= 0
    ensures Parse(pre + [Raw("(")] + rest) == Err(UnmatchedParentheses)
  {
    var l := pre + [Raw("(")] + rest;
    var i := |pre|;
    assert forall q :: 0 <= q < i ==> l[q] == pre[q];
    ParensPassSkips(l, 0, i);
    assert l[i + 1..] == rest;
    UnmatchedAt(l, i, rest);
  }

  /** The loop at an unmatched `(` raises. */
  lemma UnmatchedAt(l: seq<Item>, i: nat, rest: seq<Item>)
    requires i < |l| && l[i] == Raw("(") && l[i + 1..] == rest
    requires forall q :: 0 <= q <= |rest| ==> Net(rest[..q]) >= 0
    ensures ParensPass(l, i) == Err(UnmatchedParentheses)
  {
    var start := i + 1;
    forall q | start <= q < |l|
      ensures 1 + Net(l[start..q]) > 0
    {
      assert l[start..q] == rest[..q - start];
    }
    MatchEndRun(l, start, |l|, 1);
    assert l[start..|l|] == rest[..|rest|];
  }

  /** The first parenthesised group, whose interior may hold further balanced
      groups, is replaced by the tree parsed from its interior, and the loop
      goes on at that tree; an error in the interior is the error of the
      whole. */
  lemma GroupReplaced(pre: seq<Item>, inner: seq<Item>, post: seq<Item>)
    requires forall q :: 0 <= q < |pre| ==> pre[q] != Raw("(")
    requires Balanced(inner)
    ensures Parse(inner).Err? ==>
      ParensPass(pre + [Raw("(")] + inner + [Raw(")")] + post, 0) == Err(Parse(inner).error)
    ensures Parse(inner).Ok? ==>
      ParensPass(pre + [Raw("(")] + inner + [Raw(")")] + post, 0) == ParensPass(pre + [Parse(inner).value] + post, |pre|)
  {
    var l := pre + [Raw("(")] + inner + [Raw(")")] + post;
    GroupLists(pre, inner, post);
    ParensOpen(l, |pre|, |pre| + 1 + |inner|);
  }

  /** Where the group sits in the work list, and that the loop reaches it. */
  lemma GroupLists(pre: seq<Item>, inner: seq<Item>, post: seq<Item>)
    requires forall q :: 0 <= q < |pre| ==> pre[q] != Raw("(")
    requires Balanced(inner)
    ensures var l, i, j := pre + [Raw("(")] + inner + [Raw(")")] + post, |pre|, |pre| + 1 + |inner|;
      && ParensPass(l, 0) == ParensPass(l, i)
      && i < j < |l| && l[i] == Raw("(") && MatchEnd(l, i + 1, 1) == (j + 1, 0)
      && l[i + 1..j] == inner && l[..i] == pre && l[j + 1..] == post
  {
    var l := pre + [Raw("(")] + inner + [Raw(")")] + post;
    var i := |pre|;
    var j := i + 1 + |inner|;
    assert forall q :: 0 <= q < i ==> l[q] == pre[q];
    ParensPassSkips(l, 0, i);
    assert l[i] == Raw("(");
    assert l[i + 1..j] == inner;
    assert l[j] == Raw(")");
    MatchEndAtClose(l, i, j);
    assert l[..i] == pre;
    assert l[j + 1..] == post;
  }

  /** A `(` at `i` whose `)` is at `j`: the span is parsed and replaced. */
  lemma ParensOpen(l: seq<Item>, i: nat, j: nat)
    requires i < j < |l| && l[i] == Raw("(") && MatchEnd(l, i + 1, 1) == (j + 1, 0)
    ensures Parse(l[i + 1..j]).Err? ==> ParensPass(l, i) == Err(Parse(l[i + 1..j]).error)
    ensures Parse(l[i + 1..j]).Ok? ==> ParensPass(l, i) == ParensPass(l[..i] + [Parse(l[i + 1..j]).value] + l[j + 1..], i)
  {
  }

  /** `()` with no `(` before it raises "Empty expression". */
  lemma EmptyParensRejected(pre: seq<Item>, post: seq<Item>)
    requires forall q :: 0 <= q < |pre| ==> pre[q] != Raw("(")
    ensures Parse(pre + [Raw("("), Raw(")")] + post) == Err(EmptyExpression)
  {
    GroupReplaced(pre, [], post);
    assert pre + [Raw("(")] + [] + [Raw(")")] + post == pre + [Raw("("), Raw(")")] + post;
  }

  // ---------------------------------------------------------------------------
  // Operators without a right operand

  /** An operator loop that meets an operator of its level in last place, with
      a non-operator before it, raises. */
  lemma {:induction false} LevelPassTrailing(l: seq<Item>, i: nat, ops: set<string>)
    requires |l| >= 2 && 1 <= i <= |l| - 1
    requires IsRawIn(l[|l| - 1], ops) && !IsRawIn(l[|l| - 2], ops)
    ensures LevelPass(l, i, ops).Err?
    decreases |l|, |l| - i
  {
    if i < |l| - 1 {
      if IsRawIn(l[i], ops) {
        var l' := l[..i - 1] + [Bin(l[i].text, l[i - 1], l[i + 1])] + l[i + 2..];
        assert l'[|l'| - 1] == l[|l| - 1];
        if i + 2 <= |l| - 2 {
          assert l'[|l'| - 2] == l[|l| - 2];
        }
        LevelPassTrailing(l', i, ops);
      } else {
        LevelPassTrailing(l, i + 1, ops);
      }
    }
  }

  /** A chain followed by a binary operator raises. */
  lemma TrailingOperatorRejected(first: Item, rest: seq<(string, Item)>, o: string)
    requires ChainOk(first, rest) && o in BinaryOps
    ensures Parse(Flat(first, rest) + [Raw(o)]).Err?
  {
    var l := Flat(first, rest) + [Raw(o)];
    ChainNoParens(first, rest);
    ParensPassNoParens(l, 0);
    FlatAt(first, rest, |Flat(first, rest)| - 1);
    if o in MulOps {
      LevelPassTrailing(l, 1, MulOps);
    } else {
      LevelPassChain([], first, rest, [Raw(o)], MulOps);
      assert [] + Flat(first, rest) + [Raw(o)] == l;
      var (f, r) := Fold(MulOps, first, rest);
      var l2 := Flat(f, r) + [Raw(o)];
      assert [] + Flat(f, r) + [Raw(o)] == l2;
      assert LevelPass(l2, |Flat(f, r)|, MulOps) == Ok(l2);
      FoldShape(MulOps, first, rest);
      FlatAt(f, r, |Flat(f, r)| - 1);
      LevelPassTrailing(l2, 1, AddOps);
    }
  }

  /** The neighbours of an operator are never checked: in `a * +` the `+` is
      taken as the right operand of `*`, and the parse succeeds. */
  lemma OperandsUnchecked(a: Item)
    requires Operand(a)
    ensures Parse([a, Raw("*"), Raw("+")]) == Ok(Bin("*", a, Raw("+")))
  {
    var l := [a, Raw("*"), Raw("+")];
    var b := [Bin("*", a, Raw("+"))];
    ParensPassNoParens(l, 0);
    assert l[..0] + b + l[3..] == b;
    assert LevelPass(b, 1, MulOps) == Ok(b);
    assert LevelPass(l, 1, MulOps) == Ok(b);
    assert LevelPass(b, 1, AddOps) == Ok(b);
  }
}
