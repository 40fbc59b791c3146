/** The tree every later stage of the pipeline works on, and
    convert_tree_to_display (Compiler/utils/tree_utils.py and its copy
    Hybrid/tree_utils.py), which renames identifiers to their `ID<n>` names
    for display. */
module Trees {
  import opened Wrappers
  import opened Syntax

  /** A `Node(value, left, right)`; `Nil` is Python's `None`. */
  datatype Tree = Nil | Node(value: string, left: Tree, right: Tree)

  /** The types the user declares for identifiers, and the assembly emitter
      records for temporaries. */
  datatype NumType = INT | FLOAT

  function Leaf(v: string): Tree { Node(v, Nil, Nil) }

  /** The tree parse_expr built, as the later stages see it. A raw token string
      left inside a node (the parser never checks an operator's neighbours)
      has no `value`, `left` or `right`, and the first stage that walks the
      tree raises on it: `None` here. */
  function ToTree(x: Item): (r: Option<Tree>)
    ensures r.Some? ==> r.value.Node?
  {
    match x
    case Leaf(v) => Some(Leaf(v))
    case Raw(_) => None
    case Bin(op, l, r) =>
      match (ToTree(l), ToTree(r))
      case (Some(a), Some(b)) => Some(Node(op, a, b))
      case _ => None
  }

  /** Back from a tree to the parser's item, for trees of the parser's shape. */
  function FromTree(t: Tree): Item
    requires t.Node?
  {
    match t
    case Node(v, l, r) =>
      if l.Nil? || r.Nil? then Syntax.Leaf(v) else Bin(v, FromTree(l), FromTree(r))
  }

  /** No raw token string anywhere in a parsed item. */
  predicate NoRaw(x: Item) {
    match x
    case Leaf(_) => true
    case Raw(_) => false
    case Bin(_, l, r) => NoRaw(l) && NoRaw(r)
  }

  /** A parsed item turns into a tree exactly when it holds no raw token
      string, and that tree turns back into the same item. */
  lemma {:induction false} ToTreeRoundTrip(x: Item)
    ensures ToTree(x).Some? <==> NoRaw(x)
    ensures ToTree(x).Some? ==> FromTree(ToTree(x).value) == x
  {
    match x
    case Leaf(_) =>
    case Raw(_) =>
    case Bin(op, l, r) =>
      ToTreeRoundTrip(l);
      ToTreeRoundTrip(r);
  }

  // ---------------------------------------------------------------------------
  // Walking a tree

  /** The node values in pre-order. */
  function Values(t: Tree): (vs: seq<string>)
    ensures t.Node? ==> |vs| > 0 && vs[0] == t.value
  {
    match t
    case Nil => []
    case Node(v, l, r) => [v] + Values(l) + Values(r)
  }

  /** The tree with every value erased: its shape. */
  datatype Shape = Empty | Fork(left: Shape, right: Shape)

  function ShapeOf(t: Tree): Shape {
    match t
    case Nil => Empty
    case Node(_, l, r) => Fork(ShapeOf(l), ShapeOf(r))
  }

  // ---------------------------------------------------------------------------
  // convert_tree_to_display

  /** A value that is an id_map key is shown under its mapped name. */
  function Rename(v: string, idMap: map<string, string>): string {
    if v in idMap then idMap[v] else v
  }

  /** The display copy of a tree: fresh nodes, each value renamed. */
  function Display(t: Tree, idMap: map<string, string>): (r: Tree)
    ensures t.Nil? <==> r.Nil?
  {
    match t
    case Nil => Nil
    case Node(v, l, r) => Node(Rename(v, idMap), Display(l, idMap), Display(r, idMap))
  }

  /** The display copy has exactly the shape of the input. */
  lemma {:induction false} DisplayShape(t: Tree, idMap: map<string, string>)
    ensures ShapeOf(Display(t, idMap)) == ShapeOf(t)
  {
    match t
    case Nil =>
    case Node(_, l, r) =>
      DisplayShape(l, idMap);
      DisplayShape(r, idMap);
  }

  /** Node by node in pre-order, a key of id_map is replaced by its name and
      every other value is kept. */
  lemma {:induction false} DisplayValues(t: Tree, idMap: map<string, string>)
    ensures |Values(Display(t, idMap))| == |Values(t)|
    ensures forall k :: 0 <= k < |Values(t)| ==> Values(Display(t, idMap))[k] == Rename(Values(t)[k], idMap)
  {
    match t
    case Nil =>
    case Node(v, l, r) =>
      DisplayValues(l, idMap);
      DisplayValues(r, idMap);
      var vl, vr := Values(l), Values(r);
      var dl, dr := Values(Display(l, idMap)), Values(Display(r, idMap));
      assert Values(t) == [v] + vl + vr;
      assert Values(Display(t, idMap)) == [Rename(v, idMap)] + dl + dr;
  }

  /** Renaming back with a map that undoes id_map restores the original tree,
      provided no kept value could be mistaken for a display name. */
  lemma {:induction false} DisplayUndone(t: Tree, idMap: map<string, string>, back: map<string, string>)
    requires forall x :: x in idMap ==> idMap[x] in back && back[idMap[x]] == x
    requires forall k :: 0 <= k < |Values(t)| && Values(t)[k] !in idMap ==> Values(t)[k] !in back
    ensures Display(Display(t, idMap), back) == t
  {
    match t
    case Nil =>
    case Node(v, l, r) =>
      assert Values(t) == [v] + Values(l) + Values(r);
      assert forall k :: 0 <= k < |Values(l)| ==> Values(l)[k] == Values(t)[1 + k];
      assert forall k :: 0 <= k < |Values(r)| ==> Values(r)[k] == Values(t)[1 + |Values(l)| + k];
      DisplayUndone(l, idMap, back);
      DisplayUndone(r, idMap, back);
  }
}
