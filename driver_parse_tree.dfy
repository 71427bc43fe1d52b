/**
 * Parse trees (`driver/parse_tree.py`): nodes carrying a symbol, an optional
 * value, children and the text of the production that built them, their
 * dictionary and indented-text forms, and the stack-based builder that an
 * LR parse drives with shifts and reductions.
 */
module ParseTree {
  import opened Wrappers
  import opened Grammar

  /** `ParseTreeNode`; `V` is the type of node values, `production` is None when not given. */
  datatype Node<V> = Node(symbol: string, value: Option<V>, children: seq<Node<V>>, production: Option<string>)

  /** A node made from a symbol and a value only: a leaf without a production. */
  function Leaf<V>(symbol: string, value: Option<V>): (n: Node<V>)
    ensures n.symbol == symbol && n.value == value && n.children == [] && n.production == None
  {
    Node(symbol, value, [], None)
  }

  /** `is_terminal`: a node is a leaf exactly when it has no children, whatever built it. */
  predicate IsTerminal<V>(n: Node<V>)
  {
    |n.children| == 0
  }

  /** A production string counts only when it is given and non-empty, as Python's truth test says. */
  predicate HasProduction<V>(n: Node<V>)
  {
    n.production.Some? && n.production.value != ""
  }

  /** `add_child`, on values: the node with `child` after its existing children. */
  function AddChild<V>(n: Node<V>, child: Node<V>): (r: Node<V>)
    ensures r.symbol == n.symbol && r.value == n.value && r.production == n.production
    ensures |r.children| == |n.children| + 1 && r.children[..|n.children|] == n.children
    ensures r.children[|n.children|] == child && !IsTerminal(r)
  {
    n.(children := n.children + [child])
  }

  /** The symbols of a tree in pre-order: the node first, then each child's subtree from left to right. */
  function Symbols<V>(n: Node<V>): seq<string>
    decreases n, 1
  {
    [n.symbol] + SymbolsAll(n.children)
  }

  function SymbolsAll<V>(cs: seq<Node<V>>): seq<string>
    decreases cs, 0
  {
    if cs == [] then [] else Symbols(cs[0]) + SymbolsAll(cs[1..])
  }

  /**
   * The dictionary `to_dict` builds; `production` is None where the key is
   * absent and `children` is empty where the key is absent (it is never
   * present and empty).
   */
  datatype Dict = Dict(symbol: string, value: Option<string>, isTerminal: bool,
                       production: Option<string>, children: seq<Dict>)

  /**
   * `to_dict`: the symbol, the value turned into text by `show` (None stays
   * None), the terminal flag, the production only when it is non-empty and
   * the children's dictionaries only when there are children.
   */
  function ToDict<V>(n: Node<V>, show: V -> string): (r: Dict)
    ensures r.symbol == n.symbol && (r.isTerminal <==> IsTerminal(n))
    ensures r.value.None? <==> n.value.None?
    ensures n.value.Some? ==> r.value == Some(show(n.value.value))
    ensures r.production.Some? <==> HasProduction(n)
    ensures HasProduction(n) ==> r.production == n.production
    ensures |r.children| == |n.children|
    decreases n
  {
    var value := match n.value case Some(v) => Some(show(v)) case None => None;
    var production := if HasProduction(n) then n.production else None;
    Dict(n.symbol, value, |n.children| == 0, production, ToDictAll(n.children, show))
  }

  /** `to_dict` of each node, in order. */
  function ToDictAll<V>(cs: seq<Node<V>>, show: V -> string): (r: seq<Dict>)
    ensures |r| == |cs|
    decreases cs
  {
    if cs == [] then [] else [ToDict(cs[0], show)] + ToDictAll(cs[1..], show)
  }

  /** The symbols of a dictionary tree in pre-order, children taken from the `children` key when present. */
  function DictSymbols(d: Dict): seq<string>
    decreases d, 1
  {
    [d.symbol] + DictSymbolsAll(d.children)
  }

  function DictSymbolsAll(ds: seq<Dict>): seq<string>
    decreases ds, 0
  {
    if ds == [] then [] else DictSymbols(ds[0]) + DictSymbolsAll(ds[1..])
  }

  /** `to_dict` recurses into every child: the dictionary tree has the same symbols in the same order as the node tree. */
  lemma {:induction false} ToDictKeepsShape<V>(n: Node<V>, show: V -> string)
    ensures DictSymbols(ToDict(n, show)) == Symbols(n)
    decreases n, 1
  {
    ToDictKeepsShapeAll(n.children, show);
  }

  lemma {:induction false} ToDictKeepsShapeAll<V>(cs: seq<Node<V>>, show: V -> string)
    ensures DictSymbolsAll(ToDictAll(cs, show)) == SymbolsAll(cs)
    decreases cs, 0
  {
    if cs != [] {
      var ds := ToDictAll(cs, show);
      ToDictKeepsShape(cs[0], show);
      ToDictKeepsShapeAll(cs[1..], show);
      assert ds[0] == ToDict(cs[0], show) && ds[1..] == ToDictAll(cs[1..], show);
    }
  }

  /** Two spaces per tree level. */
  function Indent(level: nat): (r: string)
    ensures |r| == 2 * level && forall i :: 0 <= i < |r| ==> r[i] == ' '
  {
    if level == 0 then "" else Indent(level - 1) + "  "
  }

  /** The text on a node's own line after its indentation: symbol, ` (value)` when there is one, ` [production]` when it is non-empty. */
  function Label<V>(n: Node<V>, show: V -> string): (r: string)
    ensures |r| == |n.symbol| + (if n.value.Some? then |show(n.value.value)| + 3 else 0)
                   + (if HasProduction(n) then |n.production.value| + 3 else 0)
    ensures r[..|n.symbol|] == n.symbol
    ensures n.value.Some? ==> r[|n.symbol|..|n.symbol| + |show(n.value.value)| + 3] == " (" + show(n.value.value) + ")"
    ensures HasProduction(n) ==> r[|r| - |n.production.value| - 3..] == " [" + n.production.value + "]"
  {
    n.symbol + (match n.value case Some(v) => " (" + show(v) + ")" case None => "")
      + (if HasProduction(n) then " [" + n.production.value + "]" else "")
  }

  /**
   * `__str__(level)`: the node's line, indented by two spaces per level and
   * ended by a newline, followed by each child's text one level deeper.
   */
  function Render<V>(n: Node<V>, level: nat, show: V -> string): (r: string)
    ensures |r| > 2 * level + |n.symbol| && r[..2 * level] == Indent(level)
    ensures r[2 * level..2 * level + |n.symbol|] == n.symbol && r[|r| - 1] == '\n'
    decreases n, 1
  {
    var line := Indent(level) + Label(n, show) + "\n";
    assert line[2 * level..2 * level + |n.symbol|] == Label(n, show)[..|n.symbol|];
    line + RenderAll(n.children, level + 1, show)
  }

  /** The children's texts one after the other; it ends with a newline unless there are no children. */
  function RenderAll<V>(cs: seq<Node<V>>, level: nat, show: V -> string): (r: string)
    ensures cs == [] <==> r == ""
    ensures r != "" ==> r[|r| - 1] == '\n'
    decreases cs, 0
  {
    if cs == [] then "" else Render(cs[0], level, show) + RenderAll(cs[1..], level, show)
  }

  /** The number of line breaks in a text. */
  function Breaks(s: string): nat
  {
    if s == [] then 0 else (if s[0] == '\n' then 1 else 0) + Breaks(s[1..])
  }

  lemma {:induction false} BreaksAppend(a: string, b: string)
    ensures Breaks(a + b) == Breaks(a) + Breaks(b)
  {
    if a != [] {
      assert (a + b)[0] == a[0] && (a + b)[1..] == a[1..] + b;
      BreaksAppend(a[1..], b);
    } else {
      assert a + b == b;
    }
  }

  /** The number of nodes of a tree. */
  function Size<V>(n: Node<V>): nat
    decreases n, 1
  {
    1 + SizeAll(n.children)
  }

  function SizeAll<V>(cs: seq<Node<V>>): nat
    decreases cs, 0
  {
    if cs == [] then 0 else Size(cs[0]) + SizeAll(cs[1..])
  }

  /** No symbol, shown value or production of the tree contains a line break. */
  predicate OneLineLabels<V>(n: Node<V>, show: V -> string)
    decreases n, 1
  {
    Breaks(Label(n, show)) == 0 && OneLineLabelsAll(n.children, show)
  }

  predicate OneLineLabelsAll<V>(cs: seq<Node<V>>, show: V -> string)
    decreases cs, 0
  {
    cs == [] || (OneLineLabels(cs[0], show) && OneLineLabelsAll(cs[1..], show))
  }

  lemma IndentBreaks(level: nat)
    ensures Breaks(Indent(level)) == 0
  {
    if level > 0 {
      BreaksAppend(Indent(level - 1), "  ");
      IndentBreaks(level - 1);
    }
  }

  /** When no label spans lines, the printed tree has exactly one line per node. */
  lemma {:induction false} RenderOneLinePerNode<V>(n: Node<V>, level: nat, show: V -> string)
    requires OneLineLabels(n, show)
    ensures Breaks(Render(n, level, show)) == Size(n)
    decreases n, 1
  {
    var head := Indent(level) + Label(n, show);
    BreaksAppend(Indent(level), Label(n, show));
    IndentBreaks(level);
    BreaksAppend(head, "\n");
    assert Breaks("\n") == 1 by { assert "\n"[1..] == []; }
    BreaksAppend(head + "\n", RenderAll(n.children, level + 1, show));
    RenderAllOneLinePerNode(n.children, level + 1, show);
  }

  lemma {:induction false} RenderAllOneLinePerNode<V>(cs: seq<Node<V>>, level: nat, show: V -> string)
    requires OneLineLabelsAll(cs, show)
    ensures Breaks(RenderAll(cs, level, show)) == SizeAll(cs)
    decreases cs, 0
  {
    if cs != [] {
      RenderOneLinePerNode(cs[0], level, show);
      RenderAllOneLinePerNode(cs[1..], level, show);
      BreaksAppend(Render(cs[0], level, show), RenderAll(cs[1..], level, show));
    }
  }

  function Min(a: nat, b: nat): nat
  {
    if a <= b then a else b
  }

  /** `ParseTreeBuilder`: a stack of subtrees that shifts push and reductions combine. */
  class ParseTreeBuilder<V> {
    var nodeStack: seq<Node<V>>

    constructor ()
      ensures nodeStack == []
    {
      nodeStack := [];
    }

    /** `push_terminal`: one childless leaf on top. */
    method PushTerminal(symbol: string, value: Option<V>)
      modifies this
      ensures nodeStack == old(nodeStack) + [Leaf(symbol, value)]
      ensures GetRoot() == Some(Leaf(symbol, value)) && IsTerminal(Leaf(symbol, value))
    {
      nodeStack := nodeStack + [Leaf(symbol, value)];
    }

    /**
     * `reduce`: for an `ε` or empty right side a childless node is pushed and
     * nothing is popped; otherwise as many nodes as the right side has
     * symbols, or all there are if fewer, are popped and become the new
     * node's children in their original left-to-right order. The new node is
     * returned and is the new top.
     */
    method Reduce(productionText: string, left: string, right: seq<string>) returns (parent: Node<V>)
      modifies this
      ensures parent.symbol == left && parent.value == None && parent.production == Some(productionText)
      ensures right == [Epsilon] || right == [] ==> nodeStack == old(nodeStack) + [parent] && parent.children == []
      ensures right != [Epsilon] && right != [] ==>
                var k := Min(|right|, |old(nodeStack)|);
                && nodeStack == old(nodeStack)[..|old(nodeStack)| - k] + [parent]
                && parent.children == old(nodeStack)[|old(nodeStack)| - k..]
      ensures IsTerminal(parent) <==> right == [Epsilon] || right == [] || old(nodeStack) == []
      ensures GetRoot() == Some(parent)
    {
      if right == [Epsilon] || right == [] {
        parent := Node(left, None, [], Some(productionText));
        nodeStack := nodeStack + [parent];
        return;
      }
      var children: seq<Node<V>> := [];
      var i := 0;
      while i < |right|
        invariant 0 <= i <= |right|
        invariant var k := Min(i, |old(nodeStack)|);
                  && nodeStack == old(nodeStack)[..|old(nodeStack)| - k]
                  && children == old(nodeStack)[|old(nodeStack)| - k..]
      {
        if nodeStack != [] {
          children := [nodeStack[|nodeStack| - 1]] + children;
          nodeStack := nodeStack[..|nodeStack| - 1];
        }
        i := i + 1;
      }
      parent := Node(left, None, children, Some(productionText));
      nodeStack := nodeStack + [parent];
    }

    /** `get_root`: the top of the stack, or None when it is empty. */
    function GetRoot(): (r: Option<Node<V>>)
      reads this
      ensures r.None? <==> nodeStack == []
      ensures r.Some? ==> r.value == nodeStack[|nodeStack| - 1]
    {
      if nodeStack != [] then Some(nodeStack[|nodeStack| - 1]) else None
    }

    /** `clear`. */
    method Clear()
      modifies this
      ensures nodeStack == [] && GetRoot() == None
    {
      nodeStack := [];
    }
  }
}
