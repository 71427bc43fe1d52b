/**
 * The canonical collection of LR(1) item sets (`syntax/lr1_builder.py`):
 * `closure` by a worklist, `goto` as the closure of the advanced items, and
 * `build`, which discovers the item sets breadth first from the closure of
 * `[S' -> ·S, $]` and records the goto transitions between them.
 */
module Lr1 {
  import opened Wrappers
  import opened FiniteSets
  import opened Grammar
  import opened LrItem
  import opened FirstFollow

  /** The end-of-input lookahead. */
  const EndMarker: string := "$"

  // ---------------------------------------------------------------------------
  // Closure.

  /**
   * The closure step applies to `[A -> α·Bβ, a]` when the symbol after the
   * dot is a non-empty string that names a nonterminal.
   */
  predicate Expands(nts: set<string>, it: Item)
  {
    it.dot < |it.production.right| && it.production.right[it.dot] != "" && it.production.right[it.dot] in nts
  }

  /** FIRST(βa) minus `ε` for `[A -> α·Bβ, a]`: the lookaheads of the items the closure adds for it. */
  function LookaheadsOf(first: SetMap, it: Item): set<string>
    requires it.dot < |it.production.right|
  {
    FirstSeq(first, it.production.right[it.dot + 1..] + [it.lookahead]) - {Epsilon}
  }

  /** The items `[B -> ·γ, b]` the closure adds for `[A -> α·Bβ, a]`: every B-production, every lookahead b. */
  function Produced(ps: seq<Production>, first: SetMap, it: Item): set<Item>
    requires it.dot < |it.production.right|
  {
    set p, b | p in ps && p.left == it.production.right[it.dot] && b in LookaheadsOf(first, it) :: Item(p, 0, b)
  }

  /** No closure step leads out of `c`. */
  ghost predicate Closed(ps: seq<Production>, nts: set<string>, first: SetMap, c: set<Item>)
  {
    forall it :: it in c && Expands(nts, it) ==> Produced(ps, first, it) <= c
  }

  /** `c` is the closure of `items`: the least closed set of items that contains them. */
  ghost predicate IsClosure(ps: seq<Production>, nts: set<string>, first: SetMap, items: set<Item>, c: set<Item>)
  {
    items <= c && Closed(ps, nts, first, c)
    && forall d :: items <= d && Closed(ps, nts, first, d) ==> c <= d
  }

  /** There is one closure of a set of items. */
  lemma ClosureUnique(ps: seq<Production>, nts: set<string>, first: SetMap, items: set<Item>, c1: set<Item>,
                      c2: set<Item>)
    requires IsClosure(ps, nts, first, items, c1) && IsClosure(ps, nts, first, items, c2)
    ensures c1 == c2
  {
  }

  /** The closure of a set of items is empty exactly when the set is. */
  lemma ClosureEmpty(ps: seq<Production>, nts: set<string>, first: SetMap, items: set<Item>, c: set<Item>)
    requires IsClosure(ps, nts, first, items, c)
    ensures c == {} <==> items == {}
  {
    if items == {} {
      assert Closed(ps, nts, first, {});
    }
  }

  /** The symbols an item carries: those of its production's right side and its lookahead. */
  function ItemSymbols(items: set<Item>): set<string>
  {
    (set x, j | x in items && 0 <= j < |x.production.right| :: x.production.right[j])
    + (set x | x in items :: x.lookahead)
  }

  /** Every lookahead a closure of `items` can use. */
  function ClosureLookaheads(ps: seq<Production>, first: SetMap, items: set<Item>): set<string>
  {
    Values(first) + RightSymbols(ps) + ItemSymbols(items) + {Epsilon}
  }

  /** Every item with the dot in front of a production of `ps` and a lookahead in `las`. */
  function DotZero(ps: seq<Production>, las: set<string>): set<Item>
  {
    set p, b | p in ps && b in las :: Item(p, 0, b)
  }

  /** The lookaheads of an item from `items`, or of an added item, stay among the closure's lookaheads. */
  lemma LookaheadsWithin(ps: seq<Production>, first: SetMap, items: set<Item>, it: Item)
    requires it.dot < |it.production.right|
    requires it in items || (it.production in ps && it.lookahead in ClosureLookaheads(ps, first, items))
    ensures LookaheadsOf(first, it) <= ClosureLookaheads(ps, first, items)
  {
    var l := ClosureLookaheads(ps, first, items);
    var xs := it.production.right[it.dot + 1..] + [it.lookahead];
    forall j | 0 <= j < |xs| ensures xs[j] in l {
      if j < |xs| - 1 {
        var k := it.dot + 1 + j;
        assert xs[j] == it.production.right[k];
        if it in items {
          assert xs[j] in ItemSymbols(items);
        } else {
          var n :| 0 <= n < |ps| && ps[n] == it.production;
          assert xs[j] == ps[n].right[k];
          assert xs[j] in RightSymbols(ps);
        }
      } else if it in items {
        assert xs[j] in ItemSymbols(items);
      }
    }
    FirstSeqBound(first, xs, l);
  }

  /** Items new to `c0` went to the end of the worklist, which otherwise kept its contents. */
  predicate Queued(c0: set<Item>, w0: seq<Item>, c: set<Item>, w: seq<Item>)
  {
    var ok := c0 <= c && |w0| <= |w| && w[..|w0|] == w0
      && (forall k :: |w0| <= k < |w| ==> w[k] in c)
      && (forall x :: x in c && x !in c0 ==> x in w)
      && (c == c0 ==> w == w0);
    ok
  }

  lemma QueuedTrans(c0: set<Item>, w0: seq<Item>, c1: set<Item>, w1: seq<Item>, c2: set<Item>, w2: seq<Item>)
    requires Queued(c0, w0, c1, w1) && Queued(c1, w1, c2, w2)
    ensures Queued(c0, w0, c2, w2)
  {
    assert w2[..|w0|] == w2[..|w1|][..|w0|];
    forall k | |w0| <= k < |w2| ensures w2[k] in c2 {
      if k < |w1| {
        assert w2[k] == w1[k];
      }
    }
    forall x | x in c2 && x !in c0 ensures x in w2 {
      if x in c1 {
        var k :| 0 <= k < |w1| && w1[k] == x;
        assert w2[k] == x;
      }
    }
  }

  /**
   * The innermost loop of `closure`: for each lookahead in turn other than
   * `ε`, the item `[p, 0, lookahead]` joins the closure and the worklist
   * unless it is already in the closure.
   */
  method AddLookaheads(p: Production, las: seq<string>, c0: set<Item>, w0: seq<Item>)
    returns (c: set<Item>, w: seq<Item>)
    ensures Queued(c0, w0, c, w)
    ensures forall b :: b in las && b != Epsilon ==> Item(p, 0, b) in c
    ensures forall x :: x in c && x !in c0 ==> x.production == p && x.dot == 0 && x.lookahead in las && x.lookahead != Epsilon
  {
    c, w := c0, w0;
    var j := 0;
    while j < |las|
      invariant 0 <= j <= |las| && Queued(c0, w0, c, w)
      invariant forall b :: b in las[..j] && b != Epsilon ==> Item(p, 0, b) in c
      invariant forall x :: x in c && x !in c0 ==> x.production == p && x.dot == 0 && x.lookahead in las && x.lookahead != Epsilon
    {
      var lookahead := las[j];
      if lookahead != Epsilon {
        var newItem := Item(p, 0, lookahead);
        if newItem !in c {
          ghost var c1, w1 := c, w;
          c := c + {newItem};
          w := w + [newItem];
          assert Queued(c1, w1, c, w) by {
            assert w[..|w1|] == w1;
          }
          QueuedTrans(c0, w0, c1, w1, c, w);
        }
      }
      assert las[..j + 1] == las[..j] + [las[j]];
      j := j + 1;
    }
    assert las[..j] == las;
  }

  /** The two inner loops of `closure`: every production in turn, every lookahead for each. */
  method AddProductions(prods: seq<Production>, las: seq<string>, c0: set<Item>, w0: seq<Item>)
    returns (c: set<Item>, w: seq<Item>)
    ensures Queued(c0, w0, c, w)
    ensures forall p, b :: p in prods && b in las && b != Epsilon ==> Item(p, 0, b) in c
    ensures forall x :: x in c && x !in c0 ==>
              x.production in prods && x.dot == 0 && x.lookahead in las && x.lookahead != Epsilon
  {
    c, w := c0, w0;
    var i := 0;
    while i < |prods|
      invariant 0 <= i <= |prods| && Queued(c0, w0, c, w)
      invariant forall p, b :: p in prods[..i] && b in las && b != Epsilon ==> Item(p, 0, b) in c
      invariant forall x :: x in c && x !in c0 ==>
                  x.production in prods && x.dot == 0 && x.lookahead in las && x.lookahead != Epsilon
    {
      ghost var c1, w1 := c, w;
      c, w := AddLookaheads(prods[i], las, c, w);
      QueuedTrans(c0, w0, c1, w1, c, w);
      assert prods[..i + 1] == prods[..i] + [prods[i]];
      i := i + 1;
    }
    assert prods[..i] == prods;
  }

  /**
   * The loop state of `closure`: the closure holds the input items and the
   * worklist; every item off the worklist has had its closure step applied;
   * added items have the dot in front, a production of the grammar and a
   * lookahead from `las`; and the closure lies inside every closed superset
   * of the input.
   */
  ghost predicate ClosureLoop(ps: seq<Production>, nts: set<string>, first: SetMap, items: set<Item>,
                              las: set<string>, c: set<Item>, w: seq<Item>)
  {
    && items <= c
    && (forall x :: x in w ==> x in c)
    && (forall x :: x in c && x !in w && Expands(nts, x) ==> Produced(ps, first, x) <= c)
    && (forall x :: x in c && x !in items ==> x.dot == 0 && x.production in ps && x.lookahead in las)
    && (forall d :: items <= d && Closed(ps, nts, first, d) ==> c <= d)
  }

  /** The loop state bounds the closure by the input and the dot-in-front items. */
  lemma ClosureBounded(ps: seq<Production>, nts: set<string>, first: SetMap, items: set<Item>,
                       las: set<string>, c: set<Item>, w: seq<Item>)
    requires ClosureLoop(ps, nts, first, items, las, c, w)
    ensures c <= items + DotZero(ps, las)
  {
    forall x | x in c && x !in items ensures x in DotZero(ps, las) {
      assert x == Item(x.production, 0, x.lookahead);
    }
  }

  /**
   * The closure step for `[A -> α·Bβ, a]` with B a nonterminal: every
   * `[B -> ·γ, b]` with b in FIRST(βa) minus `ε` joins the closure and the
   * worklist unless present; nothing else does.
   */
  method ExpandItem(ps: seq<Production>, nts: set<string>, first: SetMap, item: Item, c0: set<Item>,
                    w0: seq<Item>)
    returns (c: set<Item>, w: seq<Item>)
    requires Expands(nts, item)
    ensures Queued(c0, w0, c, w)
    ensures Produced(ps, first, item) <= c
    ensures forall x :: x in c && x !in c0 ==> x in Produced(ps, first, item)
  {
    var nextSym := item.production.right[item.dot];
    var betaA := item.production.right[item.dot + 1..] + [item.lookahead];
    var firstBetaA := FirstSeq(first, betaA);
    var prods := ByLeft(ps, nextSym);
    var order := ToSeq(firstBetaA);
    c, w := AddProductions(prods, order, c0, w0);
    ProducedWithin(ps, first, item, prods, order, c0, c);
  }

  /** The items added for every production and lookahead listed are exactly those the closure step produces. */
  lemma ProducedWithin(ps: seq<Production>, first: SetMap, item: Item, prods: seq<Production>, order: seq<string>,
                       c0: set<Item>, c: set<Item>)
    requires item.dot < |item.production.right|
    requires forall p :: p in prods <==> p in ps && p.left == item.production.right[item.dot]
    requires forall b :: b in order <==> b in FirstSeq(first, item.production.right[item.dot + 1..] + [item.lookahead])
    requires forall p, b :: p in prods && b in order && b != Epsilon ==> Item(p, 0, b) in c
    requires forall x :: x in c && x !in c0 ==>
               x.production in prods && x.dot == 0 && x.lookahead in order && x.lookahead != Epsilon
    ensures Produced(ps, first, item) <= c
    ensures forall x :: x in c && x !in c0 ==> x in Produced(ps, first, item)
  {
    forall x | x in Produced(ps, first, item) ensures x in c {
      var p, b :| p in ps && p.left == item.production.right[item.dot] && b in LookaheadsOf(first, item)
                  && x == Item(p, 0, b);
      assert p in prods && b in order;
    }
    forall x | x in c && x !in c0 ensures x in Produced(ps, first, item) {
      assert x == Item(x.production, 0, x.lookahead);
    }
  }

  /** What the closure step adds keeps the loop state once the popped item is off the worklist. */
  lemma StepKeepsLoop(ps: seq<Production>, nts: set<string>, first: SetMap, items: set<Item>, c0: set<Item>,
                      w0: seq<Item>, c: set<Item>, w: seq<Item>)
    requires w0 != [] && ClosureLoop(ps, nts, first, items, ClosureLookaheads(ps, first, items), c0, w0)
    requires Queued(c0, w0[..|w0| - 1], c, w)
    requires Expands(nts, w0[|w0| - 1]) ==> Produced(ps, first, w0[|w0| - 1]) <= c
    requires forall x :: x in c && x !in c0 ==> Expands(nts, w0[|w0| - 1]) && x in Produced(ps, first, w0[|w0| - 1])
    ensures ClosureLoop(ps, nts, first, items, ClosureLookaheads(ps, first, items), c, w)
  {
    var las := ClosureLookaheads(ps, first, items);
    var item := w0[|w0| - 1];
    var rest := w0[..|w0| - 1];
    forall x | x in c && x !in items ensures x.dot == 0 && x.production in ps && x.lookahead in las {
      if x !in c0 {
        LookaheadsWithin(ps, first, items, item);
      }
    }
    forall y | y in w0 && y != item ensures y in w {
      var k :| 0 <= k < |w0| && w0[k] == y;
      assert k < |w0| - 1 && rest[k] == y && w[k] == y;
    }
    forall x | x in w ensures x in c {
      var k :| 0 <= k < |w| && w[k] == x;
      if k < |rest| {
        assert rest[k] == x && x in w0;
      }
    }
    forall d | items <= d && Closed(ps, nts, first, d) ensures c <= d {
      assert c0 <= d && item in d;
    }
  }

  /** The body of the `closure` loop: pop the last item of the worklist and apply the closure step to it. */
  method ClosureStep(ps: seq<Production>, nts: set<string>, first: SetMap, items: set<Item>, c0: set<Item>,
                     w0: seq<Item>)
    returns (c: set<Item>, w: seq<Item>)
    requires w0 != [] && ClosureLoop(ps, nts, first, items, ClosureLookaheads(ps, first, items), c0, w0)
    ensures ClosureLoop(ps, nts, first, items, ClosureLookaheads(ps, first, items), c, w)
    ensures Queued(c0, w0[..|w0| - 1], c, w)
  {
    var item := w0[|w0| - 1];
    var rest := w0[..|w0| - 1];
    c, w := c0, rest;
    if Expands(nts, item) {
      c, w := ExpandItem(ps, nts, first, item, c0, rest);
    }
    StepKeepsLoop(ps, nts, first, items, c0, w0, c, w);
  }

  /**
   * `closure`: the worklist starts as the input items in some order; each
   * popped item has its closure step applied, and items not yet present are
   * added and pushed. The result is the closure of the input, and every item
   * added beyond the input has its dot in front.
   */
  method ClosureOf(ps: seq<Production>, nts: set<string>, first: SetMap, items: set<Item>) returns (c: set<Item>)
    ensures IsClosure(ps, nts, first, items, c)
    ensures forall x :: x in c && x !in items ==>
              x.dot == 0 && x.production in ps && x.lookahead in ClosureLookaheads(ps, first, items)
  {
    ghost var las := ClosureLookaheads(ps, first, items);
    ghost var u := items + DotZero(ps, las);
    var closureSet := items;
    var worklist := ToSeq(items);
    while worklist != []
      invariant ClosureLoop(ps, nts, first, items, las, closureSet, worklist)
      decreases u - closureSet, |worklist|
    {
      ghost var c0 := closureSet;
      ClosureBounded(ps, nts, first, items, las, closureSet, worklist);
      closureSet, worklist := ClosureStep(ps, nts, first, items, closureSet, worklist);
      ClosureBounded(ps, nts, first, items, las, closureSet, worklist);
    }
    c := closureSet;
  }

  // ---------------------------------------------------------------------------
  // Goto.

  /** The kernel of `goto(I, X)`: the items of I with X after the dot, advanced. */
  function Kernel(state: set<Item>, x: string): set<Item>
  {
    set it | it in state && it.NextSymbol() == Some(x) :: it.Advance()
  }

  /** The kernel is empty exactly when no item has X after the dot. */
  lemma KernelEmpty(state: set<Item>, x: string)
    ensures Kernel(state, x) == {} <==> forall it :: it in state ==> it.NextSymbol() != Some(x)
  {
    if exists it :: it in state && it.NextSymbol() == Some(x) {
      var it :| it in state && it.NextSymbol() == Some(x);
      assert it.Advance() in Kernel(state, x);
    }
  }

  lemma KernelAdd(done: set<Item>, it: Item, x: string)
    ensures Kernel(done + {it}, x) == Kernel(done, x) + (if it.NextSymbol() == Some(x) then {it.Advance()} else {})
  {
  }

  /**
   * `goto`: the items with `symbol` after the dot, advanced, then closed; the
   * empty set when there are none.
   */
  method GotoOf(ps: seq<Production>, nts: set<string>, first: SetMap, items: set<Item>, symbol: string)
    returns (r: set<Item>)
    ensures Kernel(items, symbol) == {} ==> r == {}
    ensures Kernel(items, symbol) != {} ==> IsClosure(ps, nts, first, Kernel(items, symbol), r)
    ensures forall x :: x in r && x !in Kernel(items, symbol) ==>
              x.dot == 0 && x.production in ps && x.lookahead in ClosureLookaheads(ps, first, Kernel(items, symbol))
  {
    var gotoSet := {};
    var todo := items;
    while todo != {}
      invariant todo <= items && gotoSet == Kernel(items - todo, symbol)
      decreases |todo|
    {
      var item := Choose(todo);
      KernelAdd(items - todo, item, symbol);
      assert items - (todo - {item}) == (items - todo) + {item};
      if item.NextSymbol() == Some(symbol) {
        gotoSet := gotoSet + {item.Advance()};
      }
      todo := todo - {item};
    }
    assert items - todo == items;
    if gotoSet != {} {
      r := ClosureOf(ps, nts, first, gotoSet);
    } else {
      r := {};
    }
  }

  // ---------------------------------------------------------------------------
  // The canonical collection.

  /** The start item `[S' -> ·S, $]` on the first production. */
  function StartItem(ps: seq<Production>): Item
    requires ps != []
  {
    Item(ps[0], 0, EndMarker)
  }

  /** Every lookahead an item of the collection can carry. */
  function BuildLookaheads(ps: seq<Production>, first: SetMap): set<string>
  {
    Values(first) + RightSymbols(ps) + {Epsilon, EndMarker}
  }

  /** An item on a production of `ps`, with the dot inside or at the end of the right side and a lookahead in `las`. */
  predicate InUniverse(ps: seq<Production>, las: set<string>, x: Item)
  {
    x.production in ps && x.dot <= |x.production.right| && x.lookahead in las
  }

  /** All the items `InUniverse` admits: a finite set every state of the collection lies in. */
  function Universe(ps: seq<Production>, las: set<string>): set<Item>
  {
    set p, d: nat, b | p in ps && d <= |p.right| && b in las :: Item(p, d, b)
  }

  lemma UniverseMembers(ps: seq<Production>, las: set<string>, c: set<Item>)
    requires forall x :: x in c ==> InUniverse(ps, las, x)
    ensures c <= Universe(ps, las)
  {
    forall x | x in c ensures x in Universe(ps, las) {
      assert x == Item(x.production, x.dot, x.lookahead);
    }
  }

  /** The closure of items of the universe stays in the universe. */
  lemma ClosureInUniverse(ps: seq<Production>, first: SetMap, items: set<Item>, c: set<Item>)
    requires forall x :: x in items ==> InUniverse(ps, BuildLookaheads(ps, first), x)
    requires forall x :: x in c && x !in items ==>
               x.dot == 0 && x.production in ps && x.lookahead in ClosureLookaheads(ps, first, items)
    ensures forall x :: x in c ==> InUniverse(ps, BuildLookaheads(ps, first), x)
  {
    var las := BuildLookaheads(ps, first);
    forall y | y in ItemSymbols(items) ensures y in las {
      if y !in (set x | x in items :: x.lookahead) {
        var x, j :| x in items && 0 <= j < |x.production.right| && y == x.production.right[j];
        var i :| 0 <= i < |ps| && ps[i] == x.production;
        RightSymbolsCover(ps);
        assert y == ps[i].right[j];
      }
    }
  }

  /** The kernel of a state in the universe is in the universe. */
  lemma KernelInUniverse(ps: seq<Production>, las: set<string>, state: set<Item>, x: string)
    requires forall y :: y in state ==> InUniverse(ps, las, y)
    ensures forall y :: y in Kernel(state, x) ==> InUniverse(ps, las, y)
  {
  }

  /**
   * The mutable state of `build`: the `state_map` from item sets to ids, the
   * `states` list, the `goto_table` and the worklist of states still to expand.
   */
  datatype Work = Work(stateMap: map<set<Item>, int>, states: seq<set<Item>>, gotoTable: map<(int, string), int>,
                       worklist: seq<set<Item>>)

  /**
   * The states discovered so far: state 0 is the closure of the start item;
   * the states are distinct, non-empty and inside the universe; and
   * `stateMap` gives each its index.
   */
  ghost predicate Discovered(ps: seq<Production>, nts: set<string>, first: SetMap, states: seq<set<Item>>,
                             stateMap: map<set<Item>, int>)
    requires ps != []
  {
    var ok :=
      && |states| >= 1 && IsClosure(ps, nts, first, {StartItem(ps)}, states[0])
      && (forall i, j :: 0 <= i < j < |states| ==> states[i] != states[j])
      && (forall i :: 0 <= i < |states| ==> states[i] != {} && states[i] <= Universe(ps, BuildLookaheads(ps, first)))
      && (forall c :: c in stateMap <==> c in states)
      && (forall i :: 0 <= i < |states| ==> stateMap[states[i]] == i);
    ok
  }

  /** The pairs (state, symbol) already handled: every state before `cur`, and `cur` on `done`. */
  predicate Handled(cur: int, done: set<string>, i: int, x: string)
  {
    i < cur || (i == cur && x in done)
  }

  /** A handled pair whose goto is not empty: `build` records a transition for it. */
  predicate Edge(states: seq<set<Item>>, symbols: set<string>, cur: int, done: set<string>, k: (int, string))
  {
    0 <= k.0 < |states| && k.1 in symbols && Handled(cur, done, k.0, k.1) && Kernel(states[k.0], k.1) != {}
  }

  /** A handled pair with a non-empty goto, from a state before `i`, leads to state `i` in the table. */
  ghost predicate EnteredEarlier(states: seq<set<Item>>, symbols: set<string>, g: map<(int, string), int>,
                                 cur: int, done: set<string>, i: int)
  {
    exists k :: k in g && k.0 < i && Edge(states, symbols, cur, done, k) && g[k] == i
  }

  /**
   * Every state after state 0 and below `n` is entered from an earlier one:
   * the worklist loop only numbers an item set when the goto of the state
   * being expanded leads to it.
   */
  ghost predicate ReachedInOrder(states: seq<set<Item>>, symbols: set<string>, g: map<(int, string), int>,
                                 cur: int, done: set<string>, n: int)
  {
    forall i :: 0 < i < n ==> EnteredEarlier(states, symbols, g, cur, done, i)
  }

  /** Appending states keeps every witness. */
  lemma ReachedGrow(states0: seq<set<Item>>, states: seq<set<Item>>, symbols: set<string>, g: map<(int, string), int>,
                    cur: int, done: set<string>, n: int)
    requires ReachedInOrder(states0, symbols, g, cur, done, n)
    requires |states0| <= |states| && states[..|states0|] == states0
    ensures ReachedInOrder(states, symbols, g, cur, done, n)
  {
    forall i | 0 < i < n ensures EnteredEarlier(states, symbols, g, cur, done, i) {
      assert EnteredEarlier(states0, symbols, g, cur, done, i);
      var k :| k in g && k.0 < i && Edge(states0, symbols, cur, done, k) && g[k] == i;
      assert states[k.0] == states0[k.0] by { assert states[..|states0|][k.0] == states[k.0]; }
      assert Edge(states, symbols, cur, done, k);
    }
  }

  /** Handling more pairs keeps every witness. */
  lemma ReachedWiden(states: seq<set<Item>>, symbols: set<string>, g: map<(int, string), int>,
                     cur: int, done: set<string>, cur': int, done': set<string>, n: int)
    requires ReachedInOrder(states, symbols, g, cur, done, n)
    requires cur < cur' || (cur == cur' && done <= done')
    ensures ReachedInOrder(states, symbols, g, cur', done', n)
  {
    forall i | 0 < i < n ensures EnteredEarlier(states, symbols, g, cur', done', i) {
      assert EnteredEarlier(states, symbols, g, cur, done, i);
      var k :| k in g && k.0 < i && Edge(states, symbols, cur, done, k) && g[k] == i;
      assert Edge(states, symbols, cur', done', k);
    }
  }

  /** The goto of `cur` on `x` recorded: it may enter the state numbered last, and every earlier witness stays. */
  lemma ReachedAdd(states: seq<set<Item>>, symbols: set<string>, g: map<(int, string), int>,
                   cur: int, done: set<string>, x: string, n0: int, n: int, j: int)
    requires ReachedInOrder(states, symbols, g, cur, done, n0)
    requires 0 <= cur < n0 <= |states| && x in symbols && x !in done && Kernel(states[cur], x) != {}
    requires n == n0 || (n == n0 + 1 && j == n0)
    ensures ReachedInOrder(states, symbols, g[(cur, x) := j], cur, done + {x}, n)
  {
    var g1 := g[(cur, x) := j];
    forall i | 0 < i < n ensures EnteredEarlier(states, symbols, g1, cur, done + {x}, i) {
      if i < n0 {
        assert EnteredEarlier(states, symbols, g, cur, done, i);
        var k :| k in g && k.0 < i && Edge(states, symbols, cur, done, k) && g[k] == i;
        assert k != (cur, x) && g1[k] == i;
        assert Edge(states, symbols, cur, done + {x}, k);
      } else {
        assert Edge(states, symbols, cur, done + {x}, (cur, x)) && g1[(cur, x)] == i;
      }
    }
  }

  /**
   * The goto table so far, against the table `g0` it started from: every
   * handled pair with a non-empty goto maps to the state that is the closure
   * of its kernel; every other entry is as in `g0`, and none of `g0` is lost.
   */
  ghost predicate Linked(ps: seq<Production>, nts: set<string>, first: SetMap, symbols: set<string>,
                         states: seq<set<Item>>, g0: map<(int, string), int>, g: map<(int, string), int>,
                         cur: int, done: set<string>)
  {
    var ok :=
      && g0.Keys <= g.Keys
      && (forall k :: k in g && !Edge(states, symbols, cur, done, k) ==> k in g0 && g[k] == g0[k])
      && (forall k :: Edge(states, symbols, cur, done, k) ==>
            k in g && 0 <= g[k] < |states| && IsClosure(ps, nts, first, Kernel(states[k.0], k.1), states[g[k]]));
    ok
  }

  /** The loop state of `build` while state `cur`, the item set `current`, is being expanded. */
  ghost predicate Expanding(ps: seq<Production>, nts: set<string>, first: SetMap, symbols: set<string>,
                            g0: map<(int, string), int>, w: Work, current: set<Item>, cur: int, done: set<string>)
    requires ps != []
  {
    && Tracking(ps, nts, first, symbols, g0, w, current, cur, done)
    && ReachedInOrder(w.states, symbols, w.gotoTable, cur, done, |w.states|)
  }

  /** `Expanding` but for the order of discovery, which a state just numbered has still to be linked to. */
  ghost predicate Tracking(ps: seq<Production>, nts: set<string>, first: SetMap, symbols: set<string>,
                           g0: map<(int, string), int>, w: Work, current: set<Item>, cur: int, done: set<string>)
    requires ps != []
  {
    var ok :=
      && Discovered(ps, nts, first, w.states, w.stateMap)
      && Linked(ps, nts, first, symbols, w.states, g0, w.gotoTable, cur, done)
      && 0 <= cur < |w.states| && current == w.states[cur] && w.worklist == w.states[cur + 1..];
    ok
  }

  /** The loop over the symbols for state `cur`: `done` handled, `todo` still to handle. */
  ghost predicate Sweeping(ps: seq<Production>, nts: set<string>, first: SetMap, symbols: set<string>,
                           g0: map<(int, string), int>, w: Work, current: set<Item>, cur: int,
                           done: set<string>, todo: set<string>)
    requires ps != []
  {
    var ok :=
      && Expanding(ps, nts, first, symbols, g0, w, current, cur, done)
      && done + todo == symbols && done !! todo;
    ok
  }

  lemma SweepOpen(ps: seq<Production>, nts: set<string>, first: SetMap, symbols: set<string>,
                  g0: map<(int, string), int>, w: Work, current: set<Item>, cur: int,
                  done: set<string>, todo: set<string>, x: string)
    requires ps != [] && Sweeping(ps, nts, first, symbols, g0, w, current, cur, done, todo) && x in todo
    ensures Expanding(ps, nts, first, symbols, g0, w, current, cur, done)
    ensures x in symbols && x !in done
  {
  }

  lemma SweepClose(ps: seq<Production>, nts: set<string>, first: SetMap, symbols: set<string>,
                   g0: map<(int, string), int>, w: Work, current: set<Item>, cur: int,
                   done: set<string>, todo: set<string>, x: string)
    requires ps != [] && Expanding(ps, nts, first, symbols, g0, w, current, cur, done + {x})
    requires done + todo == symbols && done !! todo && x in todo
    ensures Sweeping(ps, nts, first, symbols, g0, w, current, cur, done + {x}, todo - {x})
  {
  }

  /** The id `stateMap` gives a discovered state is its index in the list. */
  lemma StateMapIndex(ps: seq<Production>, nts: set<string>, first: SetMap, w: Work, c: set<Item>)
    requires ps != [] && Discovered(ps, nts, first, w.states, w.stateMap) && c in w.stateMap
    ensures 0 <= w.stateMap[c] < |w.states| && w.states[w.stateMap[c]] == c
  {
    var i :| 0 <= i < |w.states| && w.states[i] == c;
  }

  /** A new state joins the list under the next id and is queued. */
  method AddState(ghost ps: seq<Production>, ghost nts: set<string>, ghost first: SetMap, c: set<Item>, w0: Work)
    returns (w: Work)
    requires ps != [] && Discovered(ps, nts, first, w0.states, w0.stateMap)
    requires c !in w0.stateMap && c != {} && c <= Universe(ps, BuildLookaheads(ps, first))
    ensures Discovered(ps, nts, first, w.states, w.stateMap)
    ensures w.states == w0.states + [c] && w.gotoTable == w0.gotoTable && w.worklist == w0.worklist + [c]
  {
    var newId := |w0.states|;
    w := Work(w0.stateMap[c := newId], w0.states + [c], w0.gotoTable, w0.worklist + [c]);
    assert forall i :: 0 <= i < |w0.states| ==> w.states[i] == w0.states[i];
  }

  /** A longer state list keeps the recorded transitions valid. */
  lemma LinkedExtend(ps: seq<Production>, nts: set<string>, first: SetMap, symbols: set<string>,
                     states0: seq<set<Item>>, states: seq<set<Item>>, g0: map<(int, string), int>,
                     g: map<(int, string), int>, cur: int, done: set<string>)
    requires Linked(ps, nts, first, symbols, states0, g0, g, cur, done)
    requires 0 <= cur < |states0| <= |states| && states[..|states0|] == states0
    ensures Linked(ps, nts, first, symbols, states, g0, g, cur, done)
  {
    forall i | 0 <= i < |states0| ensures states[i] == states0[i] {
      assert states[..|states0|][i] == states[i];
    }
    forall k | k in g && !Edge(states, symbols, cur, done, k) ensures k in g0 && g[k] == g0[k] {
      assert !Edge(states0, symbols, cur, done, k);
    }
    forall k | Edge(states, symbols, cur, done, k)
      ensures k in g && 0 <= g[k] < |states| && IsClosure(ps, nts, first, Kernel(states[k.0], k.1), states[g[k]])
    {
      assert Edge(states0, symbols, cur, done, k);
    }
  }

  /** Handling `x` for state `cur` when its goto is empty: the table stays. */
  lemma LinkedSkip(ps: seq<Production>, nts: set<string>, first: SetMap, symbols: set<string>,
                   states: seq<set<Item>>, g0: map<(int, string), int>, g: map<(int, string), int>,
                   cur: int, done: set<string>, x: string)
    requires Linked(ps, nts, first, symbols, states, g0, g, cur, done)
    requires 0 <= cur < |states| && Kernel(states[cur], x) == {}
    ensures Linked(ps, nts, first, symbols, states, g0, g, cur, done + {x})
  {
    forall k | Edge(states, symbols, cur, done + {x}, k) ensures Edge(states, symbols, cur, done, k) {
    }
    forall k | k in g && !Edge(states, symbols, cur, done + {x}, k) ensures k in g0 && g[k] == g0[k] {
      if k.0 == cur && k.1 == x {
        assert !Edge(states, symbols, cur, done, k);
      }
    }
  }

  /** Handling `x` for state `cur` when its goto is not empty: a transition to the state of its closure. */
  lemma LinkedAdd(ps: seq<Production>, nts: set<string>, first: SetMap, symbols: set<string>,
                  states: seq<set<Item>>, g0: map<(int, string), int>, g: map<(int, string), int>,
                  cur: int, done: set<string>, x: string, j: int)
    requires Linked(ps, nts, first, symbols, states, g0, g, cur, done)
    requires 0 <= cur < |states| && x in symbols && Kernel(states[cur], x) != {}
    requires 0 <= j < |states| && IsClosure(ps, nts, first, Kernel(states[cur], x), states[j])
    ensures Linked(ps, nts, first, symbols, states, g0, g[(cur, x) := j], cur, done + {x})
  {
    var g1 := g[(cur, x) := j];
    forall k | k in g1 && !Edge(states, symbols, cur, done + {x}, k) ensures k in g0 && g1[k] == g0[k] {
      assert k != (cur, x) && !Edge(states, symbols, cur, done, k);
    }
    forall k | Edge(states, symbols, cur, done + {x}, k)
      ensures k in g1 && 0 <= g1[k] < |states| && IsClosure(ps, nts, first, Kernel(states[k.0], k.1), states[g1[k]])
    {
      if k != (cur, x) {
        assert Edge(states, symbols, cur, done, k);
      }
    }
  }

  /** Once every symbol of `cur` is handled, the next state starts with none. */
  lemma LinkedNext(ps: seq<Production>, nts: set<string>, first: SetMap, symbols: set<string>,
                   states: seq<set<Item>>, g0: map<(int, string), int>, g: map<(int, string), int>, cur: int)
    requires Linked(ps, nts, first, symbols, states, g0, g, cur, symbols)
    ensures Linked(ps, nts, first, symbols, states, g0, g, cur + 1, {})
  {
    forall k ensures Edge(states, symbols, cur + 1, {}, k) <==> Edge(states, symbols, cur, symbols, k) {
    }
  }

  /** Appending to the state list keeps its prefix and extends the part after `cur`. */
  lemma AppendSlices(states0: seq<set<Item>>, c: set<Item>, cur: int)
    requires 0 <= cur < |states0|
    ensures (states0 + [c])[..|states0|] == states0
    ensures (states0 + [c])[cur + 1..] == states0[cur + 1..] + [c]
    ensures (states0 + [c])[cur] == states0[cur]
  {
  }

  /**
   * The `state_map` lookup of `build`: an item set not seen before gets the
   * next id, the last one, and is queued; either way its id is returned.
   */
  method Discover(ghost ps: seq<Production>, ghost nts: set<string>, ghost first: SetMap, ghost symbols: set<string>,
                  ghost g0: map<(int, string), int>, w0: Work, ghost current: set<Item>, ghost cur: int,
                  ghost done: set<string>, c: set<Item>)
    returns (w: Work, j: int)
    requires ps != [] && Expanding(ps, nts, first, symbols, g0, w0, current, cur, done)
    requires c != {} && c <= Universe(ps, BuildLookaheads(ps, first))
    ensures Tracking(ps, nts, first, symbols, g0, w, current, cur, done)
    ensures ReachedInOrder(w.states, symbols, w.gotoTable, cur, done, |w0.states|)
    ensures |w.states| == |w0.states| || (|w.states| == |w0.states| + 1 && j == |w0.states|)
    ensures 0 <= j < |w.states| && w.states[j] == c && w.gotoTable == w0.gotoTable
  {
    if c !in w0.stateMap {
      var x := AddState(ps, nts, first, c, w0);
      AppendSlices(w0.states, c, cur);
      LinkedExtend(ps, nts, first, symbols, w0.states, x.states, g0, x.gotoTable, cur, done);
      ReachedGrow(w0.states, x.states, symbols, x.gotoTable, cur, done, |w0.states|);
      StateMapIndex(ps, nts, first, x, c);
      w, j := x, x.stateMap[c];
    } else {
      StateMapIndex(ps, nts, first, w0, c);
      w, j := w0, w0.stateMap[c];
    }
  }

  /**
   * One pass of the loop over the symbols in `build`: `goto(current, x)`;
   * nothing when it is empty, otherwise a transition to its state,
   * discovered and queued first if it is new.
   */
  method StepSymbol(ps: seq<Production>, nts: set<string>, first: SetMap, ghost symbols: set<string>,
                    ghost g0: map<(int, string), int>, w0: Work, current: set<Item>, cur: int,
                    ghost done: set<string>, x: string)
    returns (w: Work)
    requires ps != [] && Expanding(ps, nts, first, symbols, g0, w0, current, cur, done)
    requires x in symbols && x !in done
    ensures Expanding(ps, nts, first, symbols, g0, w, current, cur, done + {x})
  {
    var nextState := GotoOf(ps, nts, first, current, x);
    if nextState == {} {
      if Kernel(current, x) != {} {
        ClosureEmpty(ps, nts, first, Kernel(current, x), nextState);
      }
      LinkedSkip(ps, nts, first, symbols, w0.states, g0, w0.gotoTable, cur, done, x);
      ReachedWiden(w0.states, symbols, w0.gotoTable, cur, done, cur, done + {x}, |w0.states|);
      w := w0;
    } else {
      ghost var las := BuildLookaheads(ps, first);
      KernelInUniverse(ps, las, current, x);
      ClosureInUniverse(ps, first, Kernel(current, x), nextState);
      UniverseMembers(ps, las, nextState);
      var x1, j := Discover(ps, nts, first, symbols, g0, w0, current, cur, done, nextState);
      LinkedAdd(ps, nts, first, symbols, x1.states, g0, x1.gotoTable, cur, done, x, j);
      ReachedAdd(x1.states, symbols, x1.gotoTable, cur, done, x, |w0.states|, |x1.states|, j);
      w := x1.(gotoTable := x1.gotoTable[(cur, x) := j]);
    }
  }

  /** The loop over `terminals | non_terminals` in `build`, for the state `cur` just taken off the worklist. */
  method ExpandState(ps: seq<Production>, nts: set<string>, first: SetMap, symbols: set<string>,
                     ghost g0: map<(int, string), int>, w0: Work, current: set<Item>, cur: int)
    returns (w: Work)
    requires ps != [] && Expanding(ps, nts, first, symbols, g0, w0, current, cur, {})
    ensures Expanding(ps, nts, first, symbols, g0, w, current, cur, symbols)
  {
    w := w0;
    var todo := symbols;
    ghost var done: set<string> := {};
    while todo != {}
      invariant Sweeping(ps, nts, first, symbols, g0, w, current, cur, done, todo)
      decreases |todo|
    {
      var x := Choose(todo);
      SweepOpen(ps, nts, first, symbols, g0, w, current, cur, done, todo, x);
      w := StepSymbol(ps, nts, first, symbols, g0, w, current, cur, done, x);
      SweepClose(ps, nts, first, symbols, g0, w, current, cur, done, todo, x);
      todo := todo - {x};
      done := done + {x};
    }
    assert done == symbols;
  }

  /**
   * What `build` promises: state 0 is the closure of `[S' -> ·S, $]`; the
   * states are distinct and non-empty; a pair (state, symbol) whose goto is
   * not empty maps to the state that is that goto; every other entry of the
   * table is as it was before, and none of those is lost; and every state
   * after state 0 is the goto of an earlier state, so it was discovered from
   * the start state in that order.
   */
  ghost predicate IsCollection(ps: seq<Production>, nts: set<string>, first: SetMap, symbols: set<string>,
                               g0: map<(int, string), int>, states: seq<set<Item>>, g: map<(int, string), int>)
    requires ps != []
  {
    var ok :=
      && |states| >= 1 && IsClosure(ps, nts, first, {StartItem(ps)}, states[0])
      && (forall i, j :: 0 <= i < j < |states| ==> states[i] != states[j])
      && (forall i :: 0 <= i < |states| ==> states[i] != {})
      && (forall i, x :: 0 <= i < |states| && x in symbols && Kernel(states[i], x) != {} ==>
            (i, x) in g && 0 <= g[(i, x)] < |states| && IsClosure(ps, nts, first, Kernel(states[i], x), states[g[(i, x)]]))
      && g0.Keys <= g.Keys
      && (forall k :: k in g && !(0 <= k.0 < |states| && k.1 in symbols && Kernel(states[k.0], k.1) != {}) ==>
            k in g0 && g[k] == g0[k])
      && ReachedInOrder(states, symbols, g, |states|, {}, |states|);
    ok
  }

  /** The loop state of `build` once the start closure is state 0. */
  lemma Started(ps: seq<Production>, nts: set<string>, first: SetMap, symbols: set<string>,
                g0: map<(int, string), int>, c: set<Item>, w: Work)
    requires ps != [] && IsClosure(ps, nts, first, {StartItem(ps)}, c)
    requires c <= Universe(ps, BuildLookaheads(ps, first))
    requires w == Work(map[c := 0], [c], g0, [c])
    ensures Discovered(ps, nts, first, w.states, w.stateMap)
    ensures Linked(ps, nts, first, symbols, w.states, g0, w.gotoTable, 0, {})
    ensures ReachedInOrder(w.states, symbols, w.gotoTable, 0, {}, 1)
  {
  }

  /** When every discovered state has been handled, the loop state is the promised collection. */
  lemma Finished(ps: seq<Production>, nts: set<string>, first: SetMap, symbols: set<string>,
                 g0: map<(int, string), int>, w: Work)
    requires ps != [] && Discovered(ps, nts, first, w.states, w.stateMap)
    requires Linked(ps, nts, first, symbols, w.states, g0, w.gotoTable, |w.states|, {})
    requires ReachedInOrder(w.states, symbols, w.gotoTable, |w.states|, {}, |w.states|)
    ensures IsCollection(ps, nts, first, symbols, g0, w.states, w.gotoTable)
  {
    var states, g := w.states, w.gotoTable;
    forall i, x | 0 <= i < |states| && x in symbols && Kernel(states[i], x) != {}
      ensures (i, x) in g && 0 <= g[(i, x)] < |states|
      ensures IsClosure(ps, nts, first, Kernel(states[i], x), states[g[(i, x)]])
    {
      assert Edge(states, symbols, |states|, {}, (i, x));
    }
    forall k | k in g && !(0 <= k.0 < |states| && k.1 in symbols && Kernel(states[k.0], k.1) != {})
      ensures k in g0 && g[k] == g0[k]
    {
      assert !Edge(states, symbols, |states|, {}, k);
    }
  }

  /** Read off `IsCollection`: a later state is the goto of an earlier one on some symbol. */
  lemma CollectionEntered(ps: seq<Production>, nts: set<string>, first: SetMap, symbols: set<string>,
                          g0: map<(int, string), int>, states: seq<set<Item>>, g: map<(int, string), int>, i: int)
    returns (j: int, x: string)
    requires ps != [] && IsCollection(ps, nts, first, symbols, g0, states, g) && 0 < i < |states|
    ensures 0 <= j < i && x in symbols && Kernel(states[j], x) != {}
    ensures IsClosure(ps, nts, first, Kernel(states[j], x), states[i])
  {
    assert EnteredEarlier(states, symbols, g, |states|, {}, i);
    var k :| k in g && k.0 < i && Edge(states, symbols, |states|, {}, k) && g[k] == i;
    j, x := k.0, k.1;
  }

  /** Read off `IsCollection`: a non-empty goto has an entry leading to the state that is that goto. */
  lemma CollectionEdge(ps: seq<Production>, nts: set<string>, first: SetMap, symbols: set<string>,
                       g0: map<(int, string), int>, states: seq<set<Item>>, g: map<(int, string), int>,
                       m: int, x: string)
    requires ps != [] && IsCollection(ps, nts, first, symbols, g0, states, g)
    requires 0 <= m < |states| && x in symbols && Kernel(states[m], x) != {}
    ensures (m, x) in g && 0 <= g[(m, x)] < |states|
    ensures IsClosure(ps, nts, first, Kernel(states[m], x), states[g[(m, x)]])
  {
  }

  /** Each state of one LR(1) collection of the grammar is a state of any other. */
  lemma {:induction false} CollectionStateShared(ps: seq<Production>, nts: set<string>, first: SetMap,
                                                 symbols: set<string>,
                                                 g01: map<(int, string), int>, s1: seq<set<Item>>, g1: map<(int, string), int>,
                                                 g02: map<(int, string), int>, s2: seq<set<Item>>, g2: map<(int, string), int>,
                                                 i: int)
    requires ps != [] && IsCollection(ps, nts, first, symbols, g01, s1, g1)
    requires IsCollection(ps, nts, first, symbols, g02, s2, g2)
    requires 0 <= i < |s1|
    ensures s1[i] in s2
    decreases i
  {
    if i == 0 {
      ClosureUnique(ps, nts, first, {StartItem(ps)}, s1[0], s2[0]);
    } else {
      var j, x := CollectionEntered(ps, nts, first, symbols, g01, s1, g1, i);
      CollectionStateShared(ps, nts, first, symbols, g01, s1, g1, g02, s2, g2, j);
      var m :| 0 <= m < |s2| && s2[m] == s1[j];
      CollectionEdge(ps, nts, first, symbols, g02, s2, g2, m, x);
      ClosureUnique(ps, nts, first, Kernel(s2[m], x), s1[i], s2[g2[(m, x)]]);
    }
  }

  /**
   * The canonical collection is determined by the grammar: two collections
   * of it hold the same item sets and have as many states, so they differ at
   * most in the order in which the states were numbered.
   */
  lemma CollectionUnique(ps: seq<Production>, nts: set<string>, first: SetMap, symbols: set<string>,
                         g01: map<(int, string), int>, s1: seq<set<Item>>, g1: map<(int, string), int>,
                         g02: map<(int, string), int>, s2: seq<set<Item>>, g2: map<(int, string), int>)
    requires ps != [] && IsCollection(ps, nts, first, symbols, g01, s1, g1)
    requires IsCollection(ps, nts, first, symbols, g02, s2, g2)
    ensures (forall c :: c in s1 <==> c in s2) && |s1| == |s2|
  {
    forall c | c in s1 ensures c in s2 {
      var i :| 0 <= i < |s1| && s1[i] == c;
      CollectionStateShared(ps, nts, first, symbols, g01, s1, g1, g02, s2, g2, i);
    }
    forall c | c in s2 ensures c in s1 {
      var i :| 0 <= i < |s2| && s2[i] == c;
      CollectionStateShared(ps, nts, first, symbols, g02, s2, g2, g01, s1, g1, i);
    }
    DistinctElementsSize(s1);
    DistinctElementsSize(s2);
    var e1 := set i | 0 <= i < |s1| :: s1[i];
    var e2 := set i | 0 <= i < |s2| :: s2[i];
    assert forall c :: c in e1 <==> c in s1;
    assert forall c :: c in e2 <==> c in s2;
    assert e1 == e2;
  }

  /** The worklist loop of `build`, before each pop: states before `cur` are fully expanded. */
  ghost predicate Exploring(ps: seq<Production>, nts: set<string>, first: SetMap, symbols: set<string>,
                            g0: map<(int, string), int>, w: Work, cur: int)
    requires ps != []
  {
    var ok :=
      && Discovered(ps, nts, first, w.states, w.stateMap)
      && Linked(ps, nts, first, symbols, w.states, g0, w.gotoTable, cur, {})
      && ReachedInOrder(w.states, symbols, w.gotoTable, cur, {}, |w.states|)
      && 0 <= cur <= |w.states| && w.worklist == w.states[cur..];
    ok
  }

  /** Popping the head of the worklist: it is state `cur`. */
  lemma PopHead(ps: seq<Production>, nts: set<string>, first: SetMap, symbols: set<string>,
                g0: map<(int, string), int>, w: Work, cur: int)
    requires ps != [] && Exploring(ps, nts, first, symbols, g0, w, cur) && w.worklist != []
    ensures w.worklist[0] in w.stateMap && w.stateMap[w.worklist[0]] == cur
    ensures Expanding(ps, nts, first, symbols, g0, w.(worklist := w.worklist[1..]), w.worklist[0], cur, {})
  {
    StateMapIndex(ps, nts, first, w, w.states[cur]);
  }

  /** An empty worklist: every state is expanded and the collection is complete. */
  lemma ExploreDone(ps: seq<Production>, nts: set<string>, first: SetMap, symbols: set<string>,
                    g0: map<(int, string), int>, w: Work, cur: int)
    requires ps != [] && Exploring(ps, nts, first, symbols, g0, w, cur) && w.worklist == []
    ensures IsCollection(ps, nts, first, symbols, g0, w.states, w.gotoTable)
  {
    assert cur == |w.states|;
    Finished(ps, nts, first, symbols, g0, w);
  }

  /** State `cur` fully expanded: the loop moves on to the next state. */
  lemma NextExploring(ps: seq<Production>, nts: set<string>, first: SetMap, symbols: set<string>,
                      g0: map<(int, string), int>, w: Work, current: set<Item>, cur: int)
    requires ps != [] && Expanding(ps, nts, first, symbols, g0, w, current, cur, symbols)
    ensures Exploring(ps, nts, first, symbols, g0, w, cur + 1)
  {
    LinkedNext(ps, nts, first, symbols, w.states, g0, w.gotoTable, cur);
    ReachedWiden(w.states, symbols, w.gotoTable, cur, symbols, cur + 1, {}, |w.states|);
  }

  /**
   * `build`: the closure of `[S' -> ·S, $]` is state 0; the worklist of
   * states still to expand is taken first in, first out; for each, every
   * grammar symbol in turn. The goto table `g0` is extended, not replaced.
   */
  method Explore(ps: seq<Production>, nts: set<string>, first: SetMap, symbols: set<string>,
                 g0: map<(int, string), int>)
    returns (states: seq<set<Item>>, g: map<(int, string), int>)
    requires ps != []
    ensures IsCollection(ps, nts, first, symbols, g0, states, g)
  {
    var startItem := StartItem(ps);
    var startState := ClosureOf(ps, nts, first, {startItem});
    ghost var las := BuildLookaheads(ps, first);
    ghost var u := Universe(ps, las);
    ClosureInUniverse(ps, first, {startItem}, startState);
    UniverseMembers(ps, las, startState);
    var w := Work(map[startState := 0], [startState], g0, [startState]);
    Started(ps, nts, first, symbols, g0, startState, w);
    ghost var cur := 0;
    while w.worklist != []
      invariant Exploring(ps, nts, first, symbols, g0, w, cur)
      decreases Pow2(|u|) - cur
    {
      DistinctSubsetsBound(w.states, u);
      PopHead(ps, nts, first, symbols, g0, w, cur);
      var current := w.worklist[0];
      w := w.(worklist := w.worklist[1..]);
      var currentId := w.stateMap[current];
      w := ExpandState(ps, nts, first, symbols, g0, w, current, currentId);
      NextExploring(ps, nts, first, symbols, g0, w, current, cur);
      cur := cur + 1;
    }
    ExploreDone(ps, nts, first, symbols, g0, w, cur);
    states, g := w.states, w.gotoTable;
  }

  /** Started from an empty table, `build` records a transition exactly for the pairs whose goto is not empty. */
  lemma GotoTableExact(ps: seq<Production>, nts: set<string>, first: SetMap, symbols: set<string>,
                       states: seq<set<Item>>, g: map<(int, string), int>)
    requires ps != [] && IsCollection(ps, nts, first, symbols, map[], states, g)
    ensures forall i, x :: (i, x) in g <==> 0 <= i < |states| && x in symbols && Kernel(states[i], x) != {}
  {
    var empty: map<(int, string), int> := map[];
    forall i, x | (i, x) in g ensures 0 <= i < |states| && x in symbols && Kernel(states[i], x) != {} {
      assert (i, x) !in empty;
    }
  }

  /**
   * `LR1Builder`: the grammar and its FIRST sets, and the collection built
   * from them, kept in `states` and `goto_table`.
   */
  class LR1Builder {
    const grammar: Grammar
    const firstCalculator: FirstFollowCalculator
    var states: seq<set<Item>>
    var gotoTable: map<(int, string), int>

    constructor (grammar: Grammar, firstCalculator: FirstFollowCalculator)
      ensures this.grammar == grammar && this.firstCalculator == firstCalculator
      ensures states == [] && gotoTable == map[]
    {
      this.grammar := grammar;
      this.firstCalculator := firstCalculator;
      states := [];
      gotoTable := map[];
    }

    /** `closure`, on the grammar's productions and nonterminals and the current FIRST sets. */
    method Closure(items: set<Item>) returns (c: set<Item>)
      ensures IsClosure(grammar.productions, grammar.nonTerminals, firstCalculator.firstSets, items, c)
    {
      c := ClosureOf(grammar.productions, grammar.nonTerminals, firstCalculator.firstSets, items);
    }

    /** `goto`: empty when no item has `symbol` after the dot, otherwise the closure of the advanced items. */
    method Goto(items: set<Item>, symbol: string) returns (r: set<Item>)
      ensures Kernel(items, symbol) == {} ==> r == {}
      ensures Kernel(items, symbol) != {} ==>
                IsClosure(grammar.productions, grammar.nonTerminals, firstCalculator.firstSets, Kernel(items, symbol), r)
    {
      r := GotoOf(grammar.productions, grammar.nonTerminals, firstCalculator.firstSets, items, symbol);
    }

    /**
     * `build`: the states become the canonical collection of LR(1) item sets
     * over the grammar's terminals and nonterminals, and the goto table gets
     * a transition for every pair whose goto is not empty, on top of what
     * it held before.
     */
    method Build() returns (states': seq<set<Item>>, gotoTable': map<(int, string), int>)
      requires grammar.productions != []
      modifies this
      ensures IsCollection(grammar.productions, grammar.nonTerminals, firstCalculator.firstSets,
                           grammar.terminals + grammar.nonTerminals, old(gotoTable), states, gotoTable)
      ensures states' == states && gotoTable' == gotoTable
    {
      var allSymbols := grammar.terminals + grammar.nonTerminals;
      states, gotoTable := Explore(grammar.productions, grammar.nonTerminals, firstCalculator.firstSets, allSymbols,
                                   gotoTable);
      states', gotoTable' := states, gotoTable;
    }
  }
}
