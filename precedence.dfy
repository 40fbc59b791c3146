/** What parse_expr and build_syntax_tree promise, proved about the
    specification functions of module Syntax: operator precedence and left
    associativity against a reference fold over an operand/operator chain, the
    treatment of parentheses, and the error cases. */
module Precedence {
  import opened Wrappers
  import opened Lexer
  import opened Syntax

  /** A node, as opposed to a raw token string. */
  predicate Operand(x: Item) { !x.Raw? }

  const BinaryOps: set<string> := {"+", "-", "*", "/"}

  /** `x0 op1 x1 op2 x2 ...` as a work list. */
  function FlatRest(rest: seq<(string, Item)>): (l: seq<Item>)
    ensures |l| == 2 * |rest|
    decreases |rest|
  {
    if rest == [] then [] else [Raw(rest[0].0), rest[0].1] + FlatRest(rest[1..])
  }

  function Flat(first: Item, rest: seq<(string, Item)>): seq<Item> {
    [first] + FlatRest(rest)
  }

  /** A well-formed chain: nodes in operand places, binary operators between. */
  predicate ChainOk(first: Item, rest: seq<(string, Item)>) {
    Operand(first) && forall k :: 0 <= k < |rest| ==> Operand(rest[k].1) && rest[k].0 in BinaryOps
  }

  /** The reference reading of one precedence level: walking the chain from the
      left, each operator of `ops` is folded with the operand built so far and
      the operand after it; the other operators are kept. */
  function Fold(ops: set<string>, acc: Item, rest: seq<(string, Item)>): (Item, seq<(string, Item)>)
    decreases |rest|
  {
    if rest == [] then (acc, [])
    else if rest[0].0 in ops then Fold(ops, Bin(rest[0].0, acc, rest[0].1), rest[1..])
    else
      var (f, r) := Fold(ops, rest[0].1, rest[1..]);
      (acc, [(rest[0].0, f)] + r)
  }

  /** The textbook tree of a chain: `*` and `/` bind tighter than `+` and `-`,
      and each level groups from the left. */
  function Expected(first: Item, rest: seq<(string, Item)>): Item {
    var (f, r) := Fold(MulOps, first, rest);
    Fold(AddOps, f, r).0
  }

  // ---------------------------------------------------------------------------
  // The operator loops on a chain

  lemma FlatUnfold(first: Item, rest: seq<(string, Item)>)
    requires rest != []
    ensures Flat(first, rest) == [first, Raw(rest[0].0), rest[0].1] + FlatRest(rest[1..])
  {
  }

  /** One operator loop, started just after an arbitrary prefix, folds the chain
      that follows exactly as Fold does and carries on just after it. */
  lemma {:induction false} LevelPassChain(pre: seq<Item>, acc: Item, rest: seq<(string, Item)>, post: seq<Item>, ops: set<string>)
    requires Operand(acc) && forall k :: 0 <= k < |rest| ==> Operand(rest[k].1)
    ensures var f := Fold(ops, acc, rest);
      LevelPass(pre + Flat(acc, rest) + post, |pre| + 1, ops)
      == LevelPass(pre + Flat(f.0, f.1) + post, |pre| + |Flat(f.0, f.1)|, ops)
    decreases |rest|, 1
  {
    if rest != [] {
      if rest[0].0 in ops {
        ChainFoldCase(pre, acc, rest, post, ops);
      } else {
        ChainSkipCase(pre, acc, rest, post, ops);
      }
    }
  }

  lemma {:induction false} ChainFoldCase(pre: seq<Item>, acc: Item, rest: seq<(string, Item)>, post: seq<Item>, ops: set<string>)
    requires Operand(acc) && forall k :: 0 <= k < |rest| ==> Operand(rest[k].1)
    requires rest != [] && rest[0].0 in ops
    ensures var f := Fold(ops, acc, rest);
      LevelPass(pre + Flat(acc, rest) + post, |pre| + 1, ops)
      == LevelPass(pre + Flat(f.0, f.1) + post, |pre| + |Flat(f.0, f.1)|, ops)
    decreases |rest|, 0
  {
    var b := Bin(rest[0].0, acc, rest[0].1);
    var f := Fold(ops, b, rest[1..]);
    LevelPassChain(pre, b, rest[1..], post, ops);
    ChainFoldStep(pre, acc, rest, post, ops, f);
    FoldHead(ops, acc, rest);
    assert Fold(ops, acc, rest).0 == f.0 && Fold(ops, acc, rest).1 == f.1;
  }

  lemma {:induction false} ChainSkipCase(pre: seq<Item>, acc: Item, rest: seq<(string, Item)>, post: seq<Item>, ops: set<string>)
    requires Operand(acc) && forall k :: 0 <= k < |rest| ==> Operand(rest[k].1)
    requires rest != [] && rest[0].0 !in ops
    ensures var f := Fold(ops, acc, rest);
      LevelPass(pre + Flat(acc, rest) + post, |pre| + 1, ops)
      == LevelPass(pre + Flat(f.0, f.1) + post, |pre| + |Flat(f.0, f.1)|, ops)
    decreases |rest|, 0
  {
    var o, x := rest[0].0, rest[0].1;
    var g := Fold(ops, x, rest[1..]);
    LevelPassChain(pre + [acc, Raw(o)], x, rest[1..], post, ops);
    ChainSkipStep(pre, acc, rest, post, ops, g);
    FoldHead(ops, acc, rest);
    assert Fold(ops, acc, rest).0 == acc && Fold(ops, acc, rest).1 == [(o, g.0)] + g.1;
  }

  /** The step of LevelPassChain at an operator of the level: when the loop
      takes the shorter chain, whose head is the folded node, to `f`, it takes
      the whole chain to `f` too. */
  lemma ChainFoldStep(pre: seq<Item>, acc: Item, rest: seq<(string, Item)>, post: seq<Item>, ops: set<string>,
                      f: (Item, seq<(string, Item)>))
    requires rest != [] && rest[0].0 in ops
    requires LevelPass(pre + Flat(Bin(rest[0].0, acc, rest[0].1), rest[1..]) + post, |pre| + 1, ops)
      == LevelPass(pre + Flat(f.0, f.1) + post, |pre| + |Flat(f.0, f.1)|, ops)
    ensures LevelPass(pre + Flat(acc, rest) + post, |pre| + 1, ops)
      == LevelPass(pre + Flat(f.0, f.1) + post, |pre| + |Flat(f.0, f.1)|, ops)
  {
    FoldLists(pre, acc, rest, post, ops);
  }

  /** The loop folds the head of the chain in place. */
  lemma FoldLists(pre: seq<Item>, acc: Item, rest: seq<(string, Item)>, post: seq<Item>, ops: set<string>)
    requires rest != [] && rest[0].0 in ops
    ensures var b := Bin(rest[0].0, acc, rest[0].1);
      LevelPass(pre + Flat(acc, rest) + post, |pre| + 1, ops) == LevelPass(pre + Flat(b, rest[1..]) + post, |pre| + 1, ops)
  {
    FoldListFacts(pre, acc, rest, post, ops);
    FoldOne(pre + Flat(acc, rest) + post, |pre| + 1, ops);
  }

  /** The lists ChainFoldStep relates, and the fold at the head. */
  lemma FoldListFacts(pre: seq<Item>, acc: Item, rest: seq<(string, Item)>, post: seq<Item>, ops: set<string>)
    requires rest != [] && rest[0].0 in ops
    ensures var o, x, l, i := rest[0].0, rest[0].1, pre + Flat(acc, rest) + post, |pre| + 1;
      var b := Bin(o, acc, x);
      && 0 < i && i + 1 < |l| && IsRawIn(l[i], ops) && Bin(l[i].text, l[i - 1], l[i + 1]) == b
      && l[..i - 1] + [b] + l[i + 2..] == pre + Flat(b, rest[1..]) + post
  {
    FoldStepSeqs(pre, acc, rest, post);
  }

  /** An operator of the level at `i` is folded with its neighbours. */
  lemma FoldOne(l: seq<Item>, i: nat, ops: set<string>)
    requires 0 < i && i + 1 < |l| && IsRawIn(l[i], ops)
    ensures LevelPass(l, i, ops) == LevelPass(l[..i - 1] + [Bin(l[i].text, l[i - 1], l[i + 1])] + l[i + 2..], i, ops)
  {
  }

  /** The work list holds the head of the chain right after the prefix, and
      folding it there gives the work list of the shorter chain. */
  lemma FoldStepSeqs(pre: seq<Item>, acc: Item, rest: seq<(string, Item)>, post: seq<Item>)
    requires rest != []
    ensures var o, x, l, i := rest[0].0, rest[0].1, pre + Flat(acc, rest) + post, |pre| + 1;
      && i + 1 < |l| && l[i - 1] == acc && l[i] == Raw(o) && l[i + 1] == x
      && l[..i - 1] + [Bin(o, acc, x)] + l[i + 2..] == pre + Flat(Bin(o, acc, x), rest[1..]) + post
  {
    var o, x, t := rest[0].0, rest[0].1, FlatRest(rest[1..]);
    FlatUnfold(acc, rest);
    Regroup(pre, [acc, Raw(o), x], t, post);
    Splice(pre, acc, Raw(o), x, t + post, Bin(o, acc, x));
    Regroup(pre, [Bin(o, acc, x)], t, post);
  }

  /** The step of LevelPassChain at an operator of another level: when the
      loop takes the chain after the head to `g`, it takes the whole chain to
      the head followed by `g`. */
  lemma ChainSkipStep(pre: seq<Item>, acc: Item, rest: seq<(string, Item)>, post: seq<Item>, ops: set<string>,
                      g: (Item, seq<(string, Item)>))
    requires rest != [] && rest[0].0 !in ops && Operand(rest[0].1)
    requires var pre' := pre + [acc, Raw(rest[0].0)];
      LevelPass(pre' + Flat(rest[0].1, rest[1..]) + post, |pre'| + 1, ops)
      == LevelPass(pre' + Flat(g.0, g.1) + post, |pre'| + |Flat(g.0, g.1)|, ops)
    ensures var r := [(rest[0].0, g.0)] + g.1;
      LevelPass(pre + Flat(acc, rest) + post, |pre| + 1, ops)
      == LevelPass(pre + Flat(acc, r) + post, |pre| + |Flat(acc, r)|, ops)
  {
    SkipLists(pre, acc, rest, post, ops, g);
  }

  /** The loop passes over the head of the chain. */
  lemma SkipLists(pre: seq<Item>, acc: Item, rest: seq<(string, Item)>, post: seq<Item>, ops: set<string>,
                  g: (Item, seq<(string, Item)>))
    requires rest != [] && rest[0].0 !in ops && Operand(rest[0].1)
    ensures var pre', r := pre + [acc, Raw(rest[0].0)], [(rest[0].0, g.0)] + g.1;
      && LevelPass(pre + Flat(acc, rest) + post, |pre| + 1, ops)
         == LevelPass(pre' + Flat(rest[0].1, rest[1..]) + post, |pre'| + 1, ops)
      && pre' + Flat(g.0, g.1) + post == pre + Flat(acc, r) + post
      && |pre'| + |Flat(g.0, g.1)| == |pre| + |Flat(acc, r)|
  {
    SkipListFacts(pre, acc, rest, post, ops);
    PassOverTwo(pre + Flat(acc, rest) + post, |pre| + 1, ops);
    SkipResult(pre, acc, rest[0].0, g.0, g.1);
    SkipLength(pre, acc, rest[0].0, g.0, g.1);
  }

  /** The lists ChainSkipStep relates, and the fold past the head. */
  lemma SkipListFacts(pre: seq<Item>, acc: Item, rest: seq<(string, Item)>, post: seq<Item>, ops: set<string>)
    requires rest != [] && rest[0].0 !in ops && Operand(rest[0].1)
    ensures var l, i := pre + Flat(acc, rest) + post, |pre| + 1;
      var pre' := pre + [acc, Raw(rest[0].0)];
      && i + 1 < |l| && !IsRawIn(l[i], ops) && !IsRawIn(l[i + 1], ops)
      && l == pre' + Flat(rest[0].1, rest[1..]) + post && i + 2 == |pre'| + 1
  {
    SkipStepSeqs(pre, acc, rest, post);
  }

  /** Fold at the head of the chain: an operator of the level is folded with
      the operand after it; another operator is kept with the fold of what
      follows. */
  lemma FoldHead(ops: set<string>, acc: Item, rest: seq<(string, Item)>)
    requires rest != []
    ensures var o, x := rest[0].0, rest[0].1;
      && (o in ops ==> Fold(ops, acc, rest) == Fold(ops, Bin(o, acc, x), rest[1..]))
      && (o !in ops ==> var g := Fold(ops, x, rest[1..]); Fold(ops, acc, rest) == (acc, [(o, g.0)] + g.1))
  {
  }

  /** The work list holds the head of the chain right after the prefix, and
      moving the prefix past it gives the work list of the shorter chain. */
  lemma SkipStepSeqs(pre: seq<Item>, acc: Item, rest: seq<(string, Item)>, post: seq<Item>)
    requires rest != []
    ensures var o, x, l, i := rest[0].0, rest[0].1, pre + Flat(acc, rest) + post, |pre| + 1;
      var pre' := pre + [acc, Raw(o)];
      && l == pre' + Flat(x, rest[1..]) + post
      && i + 1 < |l| && l[i] == Raw(o) && l[i + 1] == x
  {
    var o, x := rest[0].0, rest[0].1;
    var f := Flat(x, rest[1..]);
    assert Flat(acc, rest) == [acc, Raw(o)] + f by {
      HeadShift(acc, Raw(o), x, FlatRest(rest[1..]));
    }
    Assoc(pre, [acc, Raw(o)], f);
    var pre' := pre + [acc, Raw(o)];
    var l := pre' + f + post;
    assert l[|pre| + 1] == pre'[|pre| + 1] == Raw(o);
    assert l[|pre| + 2] == f[0] == x;
  }

  lemma HeadShift<T>(a: T, b: T, c: T, t: seq<T>)
    ensures [a] + ([b, c] + t) == [a, b] + ([c] + t)
  {
  }

  lemma Assoc<T>(p: seq<T>, q: seq<T>, r: seq<T>)
    ensures p + (q + r) == (p + q) + r
  {
  }

  /** Two entries that are not operators of the level are passed over. */
  lemma PassOverTwo(l: seq<Item>, i: nat, ops: set<string>)
    requires i + 1 < |l| && !IsRawIn(l[i], ops) && !IsRawIn(l[i + 1], ops)
    ensures LevelPass(l, i, ops) == LevelPass(l, i + 2, ops)
  {
  }

  /** On a chain alone, the loop ends with the folded chain. */
  lemma LevelPassWholeChain(acc: Item, rest: seq<(string, Item)>, ops: set<string>)
    requires Operand(acc) && forall k :: 0 <= k < |rest| ==> Operand(rest[k].1)
    ensures LevelPass(Flat(acc, rest), 1, ops) == Ok(Flat(Fold(ops, acc, rest).0, Fold(ops, acc, rest).1))
  {
    LevelPassChain([], acc, rest, [], ops);
    assert [] + Flat(acc, rest) + [] == Flat(acc, rest);
    var f := Fold(ops, acc, rest);
    assert [] + Flat(f.0, f.1) + [] == Flat(f.0, f.1);
  }

  lemma Regroup(a: seq<Item>, b: seq<Item>, c: seq<Item>, d: seq<Item>)
    ensures a + (b + c) + d == a + (b + (c + d))
    ensures a + (b + c) + d == a + b + (c + d)
  {
  }

  lemma Assoc3(a: seq<Item>, b: seq<Item>, c: seq<Item>)
    ensures a + (b + c) == a + b + c
  {
  }

  /** Replacing the three entries after a prefix by one. */
  lemma Splice(pre: seq<Item>, a: Item, b: Item, c: Item, tail: seq<Item>, n: Item)
    ensures var l := pre + [a, b, c] + tail;
      && |l| == |pre| + 3 + |tail|
      && l[|pre|] == a && l[|pre| + 1] == b && l[|pre| + 2] == c
      && l[..|pre|] + [n] + l[|pre| + 3..] == pre + ([n] + tail)
  {
    var l := pre + [a, b, c] + tail;
    assert l[..|pre|] == pre;
    assert l[|pre| + 3..] == tail;
  }

  lemma SkipResult(pre: seq<Item>, acc: Item, o: string, f: Item, r: seq<(string, Item)>)
    ensures (pre + [acc, Raw(o)]) + Flat(f, r) == pre + Flat(acc, [(o, f)] + r)
  {
    var rest := [(o, f)] + r;
    assert rest[1..] == r;
    FlatUnfold(acc, rest);
  }

  lemma SkipLength(pre: seq<Item>, acc: Item, o: string, f: Item, r: seq<(string, Item)>)
    ensures |pre + [acc, Raw(o)]| + |Flat(f, r)| == |pre| + |Flat(acc, [(o, f)] + r)|
  {
  }

  /** Fold keeps nodes in operand places and leaves only the other operators. */
  lemma {:induction false} FoldShape(ops: set<string>, acc: Item, rest: seq<(string, Item)>)
    requires Operand(acc) && forall k :: 0 <= k < |rest| ==> Operand(rest[k].1)
    ensures Operand(Fold(ops, acc, rest).0)
    ensures forall k :: 0 <= k < |Fold(ops, acc, rest).1| ==>
      Operand(Fold(ops, acc, rest).1[k].1) && Fold(ops, acc, rest).1[k].0 !in ops
      && exists q :: 0 <= q < |rest| && rest[q].0 == Fold(ops, acc, rest).1[k].0
    decreases |rest|
  {
    if rest != [] {
      if rest[0].0 in ops {
        FoldShape(ops, Bin(rest[0].0, acc, rest[0].1), rest[1..]);
        var r := Fold(ops, acc, rest).1;
        forall k | 0 <= k < |r| ensures exists q :: 0 <= q < |rest| && rest[q].0 == r[k].0 {
          var q :| 0 <= q < |rest[1..]| && rest[1..][q].0 == r[k].0;
          assert rest[q + 1].0 == r[k].0;
        }
      } else {
        FoldShape(ops, rest[0].1, rest[1..]);
        var r := Fold(ops, acc, rest).1;
        forall k | 0 <= k < |r| ensures exists q :: 0 <= q < |rest| && rest[q].0 == r[k].0 {
          if k == 0 {
            assert rest[0].0 == r[0].0;
          } else {
            var q :| 0 <= q < |rest[1..]| && rest[1..][q].0 == r[k].0;
            assert rest[q + 1].0 == r[k].0;
          }
        }
      }
    }
  }

  /** When every operator of the chain is of the level, the level folds it to
      one node. */
  lemma {:induction false} FoldAll(ops: set<string>, acc: Item, rest: seq<(string, Item)>)
    requires forall k :: 0 <= k < |rest| ==> rest[k].0 in ops
    ensures Fold(ops, acc, rest).1 == []
    decreases |rest|
  {
    if rest != [] {
      FoldAll(ops, Bin(rest[0].0, acc, rest[0].1), rest[1..]);
    }
  }

  /** With no `(` in the list, the parenthesis loop changes nothing. */
  lemma {:induction false} ParensPassNoParens(l: seq<Item>, i: nat)
    requires forall k :: 0 <= k < |l| ==> l[k] != Raw("(")
    ensures ParensPass(l, i) == Ok(l)
    decreases |l| - i
  {
    if i < |l| {
      ParensPassNoParens(l, i + 1);
    }
  }

  lemma ChainNoParens(first: Item, rest: seq<(string, Item)>)
    requires ChainOk(first, rest)
    ensures forall k :: 0 <= k < |Flat(first, rest)| ==> Flat(first, rest)[k] != Raw("(")
  {
    forall k | 0 <= k < |Flat(first, rest)| ensures Flat(first, rest)[k] != Raw("(") {
      FlatAt(first, rest, k);
    }
  }

  /** The entries of a flat chain: operands at even places, operators at odd ones. */
  lemma {:induction false} FlatAt(first: Item, rest: seq<(string, Item)>, k: nat)
    requires k < |Flat(first, rest)|
    ensures k == 0 ==> Flat(first, rest)[k] == first
    ensures k > 0 && k % 2 == 1 ==> Flat(first, rest)[k] == Raw(rest[k / 2].0)
    ensures k > 0 && k % 2 == 0 ==> Flat(first, rest)[k] == rest[k / 2 - 1].1
    decreases |rest|
  {
    if k > 2 {
      FlatUnfold(first, rest);
      FlatAt(rest[0].1, rest[1..], k - 2);
      assert Flat(first, rest)[k] == Flat(rest[0].1, rest[1..])[k - 2];
    } else if k > 0 {
      FlatUnfold(first, rest);
    }
  }

  /** Precedence and associativity: a chain of operands and binary operators
      parses to the textbook tree, every `*` and `/` grouped before any `+` or
      `-`, and each level grouped from the left. */
  lemma ChainParses(first: Item, rest: seq<(string, Item)>)
    requires ChainOk(first, rest)
    ensures Parse(Flat(first, rest)) == Ok(Expected(first, rest))
  {
    var l := Flat(first, rest);
    ChainNoParens(first, rest);
    ParensPassNoParens(l, 0);
    LevelPassWholeChain(first, rest, MulOps);
    var (f, r) := Fold(MulOps, first, rest);
    FoldShape(MulOps, first, rest);
    assert forall k :: 0 <= k < |r| ==> r[k].0 in AddOps by {
      forall k | 0 <= k < |r| ensures r[k].0 in AddOps {
        var q :| 0 <= q < |rest| && rest[q].0 == r[k].0;
      }
    }
    LevelPassWholeChain(f, r, AddOps);
    FoldAll(AddOps, f, r);
  }

  lemma FlatTwo(a: Item, o1: string, b: Item, o2: string, c: Item)
    ensures Flat(a, [(o1, b), (o2, c)]) == [a, Raw(o1), b, Raw(o2), c]
  {
    var rest := [(o1, b), (o2, c)];
    assert rest[1..] == [(o2, c)];
    assert rest[1..][1..] == [];
    FlatUnfold(a, rest);
    FlatUnfold(b, rest[1..]);
  }

  /** `a - b - c` groups as `(a - b) - c`. */
  lemma SubtractionGroupsLeft(a: Item, b: Item, c: Item)
    requires Operand(a) && Operand(b) && Operand(c)
    ensures Parse([a, Raw("-"), b, Raw("-"), c]) == Ok(Bin("-", Bin("-", a, b), c))
  {
    var rest := [("-", b), ("-", c)];
    FlatTwo(a, "-", b, "-", c);
    ChainParses(a, rest);
    assert rest[1..] == [("-", c)];
    assert [("-", c)][1..] == [];
    assert Fold(MulOps, c, []) == (c, []);
    assert [("-", c)] + [] == [("-", c)];
    assert [("-", b)] + [("-", c)] == rest;
    assert Fold(MulOps, b, [("-", c)]) == (b, [("-", c)]);
    assert Fold(MulOps, a, rest) == (a, rest);
    assert Fold(AddOps, Bin("-", a, b), [("-", c)]) == (Bin("-", Bin("-", a, b), c), []);
  }

  /** `a + b * c` groups as `a + (b * c)`, and `a * b + c` as `(a * b) + c`. */
  lemma ProductsBindTighter(a: Item, b: Item, c: Item)
    requires Operand(a) && Operand(b) && Operand(c)
    ensures Parse([a, Raw("+"), b, Raw("*"), c]) == Ok(Bin("+", a, Bin("*", b, c)))
    ensures Parse([a, Raw("*"), b, Raw("+"), c]) == Ok(Bin("+", Bin("*", a, b), c))
  {
    var r1 := [("+", b), ("*", c)];
    FlatTwo(a, "+", b, "*", c);
    ChainParses(a, r1);
    assert r1[1..] == [("*", c)];
    assert [("*", c)][1..] == [];
    assert Fold(MulOps, b, [("*", c)]) == (Bin("*", b, c), []);
    assert [("+", Bin("*", b, c))] + [] == [("+", Bin("*", b, c))];
    assert Fold(MulOps, a, r1) == (a, [("+", Bin("*", b, c))]);
    assert Fold(AddOps, a, [("+", Bin("*", b, c))]) == (Bin("+", a, Bin("*", b, c)), []);
    var r2 := [("*", b), ("+", c)];
    FlatTwo(a, "*", b, "+", c);
    ChainParses(a, r2);
    assert r2[1..] == [("+", c)];
    assert [("+", c)][1..] == [];
    assert Fold(MulOps, c, []) == (c, []);
    assert [("+", c)] + [] == [("+", c)];
    assert Fold(MulOps, Bin("*", a, b), [("+", c)]) == (Bin("*", a, b), [("+", c)]);
    assert Fold(AddOps, Bin("*", a, b), [("+", c)]) == (Bin("+", Bin("*", a, b), c), []);
  }
}
