/** The parser of syntax/syntax.py and its copy Hybrid/syntax.py, which differ
    only in the marker that stands for an assignment token: `=` in the first,
    `IS` in the second. `build_syntax_tree` turns the token list into a work list
    of nodes and raw token strings; `parse_expr` rewrites that list in place,
    first every parenthesised span (recursively), then the `*` and `/`
    operators, then `+` and `-`, and finally demands that one item remain. */
module Syntax {
  import opened Wrappers
  import opened Lexer

  /** An entry of the work list: a node built from an operand token, a node
      built by folding an operator, or a token string not yet consumed. The
      source puts raw strings and nodes side by side in one Python list, and a
      folded node's children may be raw strings too, since the neighbours of an
      operator are never checked. */
  datatype Item =
    | Leaf(value: string)
    | Bin(op: string, left: Item, right: Item)
    | Raw(text: string)

  /** The two copies of the parser. */
  datatype Dialect = Classic | Hybrid

  function Marker(d: Dialect): string {
    match d
    case Classic => "="
    case Hybrid => "IS"
  }

  datatype SyntaxError =
    | EmptyTokenList             // ValueError "Empty token list"
    | ExpectedMarker             // SyntaxError "Expected '=' (or 'IS') as the second token"
    | InvalidAssignment          // ValueError "Invalid assignment expression"
    | EmptyExpression            // ValueError "Empty expression"
    | UnmatchedParentheses       // ValueError "Unmatched parentheses"
    | OperatorAt(pos: nat)       // ValueError "Invalid expression: operator at position i"
    | InvalidStructure           // ValueError "Invalid expression structure"

  const MulOps: set<string> := {"*", "/"}
  const AddOps: set<string> := {"+", "-"}

  /** `get_value(item) in ops`: only a raw string can be an operator. */
  predicate IsRawIn(x: Item, ops: set<string>) {
    x.Raw? && x.text in ops
  }

  // ---------------------------------------------------------------------------
  // Specification of parse_expr

  /** The close-paren scan: from `j` with nesting `depth`, step until the depth
      drops to 0 or the list ends; the final index and depth. */
  function MatchEnd(l: seq<Item>, j: nat, depth: int): (res: (nat, int))
    ensures j <= res.0
    ensures j <= |l| ==> res.0 <= |l|
    ensures depth > 0 && res.1 == 0 ==> j < res.0
    decreases |l| - j
  {
    if j < |l| && depth > 0 then
      MatchEnd(l, j + 1, if l[j] == Raw("(") then depth + 1 else if l[j] == Raw(")") then depth - 1 else depth)
    else (j, depth)
  }

  /** The tree parse_expr returns for the work list `l`, or the error it raises. */
  function Parse(l: seq<Item>): Result<Item, SyntaxError>
    decreases |l|, 1, 0
  {
    if l == [] then Err(EmptyExpression)
    else
      match ParensPass(l, 0)
      case Err(e) => Err(e)
      case Ok(l1) =>
        match LevelPass(l1, 1, MulOps)
        case Err(e) => Err(e)
        case Ok(l2) =>
          match LevelPass(l2, 1, AddOps)
          case Err(e) => Err(e)
          case Ok(l3) => if |l3| != 1 then Err(InvalidStructure) else Ok(l3[0])
  }

  /** The parenthesis loop from index `i`: a `(` at `i` is matched, the span up
      to its `)` is replaced by the tree parsed from its interior and `i` is
      looked at again; any other item is passed over. */
  function ParensPass(l: seq<Item>, i: nat): (r: Result<seq<Item>, SyntaxError>)
    ensures r.Ok? ==> |r.value| <= |l|
    decreases |l|, 0, |l| - i
  {
    if i >= |l| then Ok(l)
    else if l[i] == Raw("(") then
      var (j, depth) := MatchEnd(l, i + 1, 1);
      if depth != 0 then Err(UnmatchedParentheses)
      else
        match Parse(l[i + 1..j - 1])
        case Err(e) => Err(e)
        case Ok(t) => ParensPass(l[..i] + [t] + l[j..], i)
    else ParensPass(l, i + 1)
  }

  /** One operator loop from index `i`: an operator of `ops` at `i` is folded
      with its two neighbours into one node, which takes their place, and `i`
      is looked at again; an operator with nothing after it raises. */
  function LevelPass(l: seq<Item>, i: nat, ops: set<string>): (r: Result<seq<Item>, SyntaxError>)
    ensures r.Ok? ==> 0 < |r.value| <= |l| || (r.value == l && |l| <= i)
    decreases |l|, |l| - i
  {
    if i >= |l| then Ok(l)
    else if IsRawIn(l[i], ops) then
      if i == 0 || i >= |l| - 1 then Err(OperatorAt(i))
      else LevelPass(l[..i - 1] + [Bin(l[i].text, l[i - 1], l[i + 1])] + l[i + 2..], i, ops)
    else LevelPass(l, i + 1, ops)
  }

  // ---------------------------------------------------------------------------
  // Specification of build_syntax_tree

  /** The work-list entry for one token: operands become nodes; in the hybrid
      copy an assignment token becomes the marker `IS`; everything else keeps
      its text. */
  function ToItem(d: Dialect, t: Token): Item {
    if t.kind in {IDENTIFIER, INT, FLOAT} then Leaf(t.value)
    else if d == Hybrid && t.kind == ASSIGN then Raw("IS")
    else Raw(t.value)
  }

  function Items(d: Dialect, tokens: seq<Token>): (nodes: seq<Item>)
    ensures |nodes| == |tokens|
    ensures forall k :: 0 <= k < |tokens| ==> nodes[k] == ToItem(d, tokens[k])
  {
    seq(|tokens|, k requires 0 <= k < |tokens| => ToItem(d, tokens[k]))
  }

  /** Index of the first marker in the list, or its length. */
  function FirstMarker(nodes: seq<Item>, m: string): (k: nat)
    ensures k <= |nodes|
    ensures k < |nodes| ==> nodes[k] == Raw(m)
    ensures forall q :: 0 <= q < k ==> nodes[q] != Raw(m)
  {
    if nodes == [] then 0
    else if nodes[0] == Raw(m) then 0
    else 1 + FirstMarker(nodes[1..], m)
  }

  /** The tree build_syntax_tree returns for `tokens`, or the error it raises. */
  function Build(d: Dialect, tokens: seq<Token>): Result<Item, SyntaxError> {
    if tokens == [] then Err(EmptyTokenList)
    else
      var nodes := Items(d, tokens);
      var m := Marker(d);
      if |nodes| >= 2 && nodes[1] != Raw(m) then Err(ExpectedMarker)
      else
        var k := FirstMarker(nodes, m);
        if k < |nodes| then
          if k == 0 || k >= |nodes| - 1 then Err(InvalidAssignment)
          else
            match Parse(nodes[k + 1..])
            case Err(e) => Err(e)
            case Ok(t) => Ok(Bin(m, nodes[k - 1], t))
        else Parse(nodes)
  }

  // ---------------------------------------------------------------------------
  // The imperative parser

  /** parse_expr: works on its own copy of the list (a sequence value here) and
      rewrites it slice by slice. */
  method ParseExpr(exprList: seq<Item>) returns (r: Result<Item, SyntaxError>)
    ensures r == Parse(exprList)
    decreases |exprList|
  {
    if exprList == [] {
      return Err(EmptyExpression);
    }
    var list := exprList;
    // parentheses
    var i := 0;
    while i < |list|
      invariant |list| <= |exprList|
      invariant ParensPass(list, i) == ParensPass(exprList, 0)
      decreases |list|, |list| - i
    {
      if list[i] == Raw("(") {
        var depth := 1;
        var j := i + 1;
        while j < |list| && depth > 0
          invariant i + 1 <= j <= |list|
          invariant MatchEnd(list, j, depth) == MatchEnd(list, i + 1, 1)
          decreases |list| - j
        {
          var val := list[j];
          if val == Raw("(") {
            depth := depth + 1;
          } else if val == Raw(")") {
            depth := depth - 1;
          }
          j := j + 1;
        }
        if depth != 0 {
          return Err(UnmatchedParentheses);
        }
        var sub := ParseExpr(list[i + 1..j - 1]);
        if sub.Err? {
          return Err(sub.error);
        }
        list := list[..i] + [sub.value] + list[j..];
      } else {
        i := i + 1;
      }
    }
    ghost var afterParens := list;
    // `*` and `/`
    i := 1;
    while i < |list|
      invariant LevelPass(list, i, MulOps) == LevelPass(afterParens, 1, MulOps)
      decreases |list|, |list| - i
    {
      if i < |list| && IsRawIn(list[i], MulOps) {
        if i == 0 || i >= |list| - 1 {
          return Err(OperatorAt(i));
        }
        var left := list[i - 1];
        var right := list[i + 1];
        list := list[..i - 1] + [Bin(list[i].text, left, right)] + list[i + 2..];
      } else {
        i := i + 1;
      }
    }
    ghost var afterMul := list;
    // `+` and `-`
    i := 1;
    while i < |list|
      invariant LevelPass(list, i, AddOps) == LevelPass(afterMul, 1, AddOps)
      decreases |list|, |list| - i
    {
      if i < |list| && IsRawIn(list[i], AddOps) {
        if i == 0 || i >= |list| - 1 {
          return Err(OperatorAt(i));
        }
        var left := list[i - 1];
        var right := list[i + 1];
        list := list[..i - 1] + [Bin(list[i].text, left, right)] + list[i + 2..];
      } else {
        i := i + 1;
      }
    }
    if |list| != 1 {
      return Err(InvalidStructure);
    }
    return Ok(list[0]);
  }

  /** build_syntax_tree of either copy: it converts the tokens to work-list
      entries, checks that the second entry is the assignment marker, finds the
      first marker and parses what follows it. */
  method BuildSyntaxTree(d: Dialect, tokens: seq<Token>) returns (r: Result<Item, SyntaxError>)
    ensures r == Build(d, tokens)
  {
    if tokens == [] {
      return Err(EmptyTokenList);
    }
    var m := Marker(d);
    var nodes: seq<Item> := [];
    for k := 0 to |tokens|
      invariant nodes == Items(d, tokens[..k])
    {
      var t := tokens[k];
      ItemsStep(d, tokens, k);
      if t.kind in {IDENTIFIER, INT, FLOAT} {
        nodes := nodes + [Leaf(t.value)];
      } else if d == Hybrid && t.kind == ASSIGN {
        nodes := nodes + [Raw("IS")];
      } else {
        nodes := nodes + [Raw(t.value)];
      }
    }
    ItemsAll(d, tokens);
    if |nodes| >= 2 && nodes[1] != Raw(m) {
      return Err(ExpectedMarker);
    }
    var eqIndex: Option<nat> := None;
    var i := 0;
    while i < |nodes|
      invariant i <= |nodes|
      invariant eqIndex == None ==> forall q :: 0 <= q < i ==> nodes[q] != Raw(m)
      invariant eqIndex == None || (eqIndex == Some(FirstMarker(nodes, m)) && FirstMarker(nodes, m) < |nodes|)
    {
      if nodes[i] == Raw(m) {
        eqIndex := Some(i);
        FirstMarkerAt(nodes, m, i);
        break;
      }
      i := i + 1;
    }
    if eqIndex.Some? {
      var k := eqIndex.value;
      if k == 0 || k >= |nodes| - 1 {
        return Err(InvalidAssignment);
      }
      var left := nodes[k - 1];
      var right := ParseExpr(nodes[k + 1..]);
      if right.Err? {
        return Err(right.error);
      }
      return Ok(Bin(m, left, right.value));
    } else {
      FirstMarkerAbsent(nodes, m);
      r := ParseExpr(nodes);
    }
  }

  lemma ItemsStep(d: Dialect, tokens: seq<Token>, k: nat)
    requires k < |tokens|
    ensures Items(d, tokens[..k + 1]) == Items(d, tokens[..k]) + [ToItem(d, tokens[k])]
  {
  }

  lemma ItemsAll(d: Dialect, tokens: seq<Token>)
    ensures Items(d, tokens[..|tokens|]) == Items(d, tokens)
  {
    assert tokens[..|tokens|] == tokens;
  }

  lemma FirstMarkerAt(nodes: seq<Item>, m: string, i: nat)
    requires i < |nodes| && nodes[i] == Raw(m)
    requires forall q :: 0 <= q < i ==> nodes[q] != Raw(m)
    ensures FirstMarker(nodes, m) == i
  {
    var k := FirstMarker(nodes, m);
    assert k <= i;
  }

  lemma FirstMarkerAbsent(nodes: seq<Item>, m: string)
    requires forall q :: 0 <= q < |nodes| ==> nodes[q] != Raw(m)
    ensures FirstMarker(nodes, m) == |nodes|
  {
  }
}
