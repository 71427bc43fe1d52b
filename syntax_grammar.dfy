/**
 * Context-free grammars (`syntax/grammar.py`): the immutable `Production`
 * record with its printed form, and the `Grammar` object whose production
 * list and symbol sets `add_production` and `augment` update in place.
 */
module Grammar {

  /** `left -> right`, numbered by `id`. */
  datatype Production = Production(id: int, left: string, right: seq<string>)

  /** The start symbol of an augmented grammar. */
  const Augmented: string := "S'"

  /** The empty-word marker, which is never a terminal. */
  const Epsilon: string := "ε"

  // ---------------------------------------------------------------------------
  // Printing a production: `' '.join(right)`, and its inverse `split(' ')`.

  /** `' '.join(xs)` for a non-empty list. */
  function Join(xs: seq<string>): string
    requires xs != []
  {
    if |xs| == 1 then xs[0] else xs[0] + " " + Join(xs[1..])
  }

  /** `s.split(' ')`: the pieces between single spaces, empty pieces included. */
  function Split(s: string): (r: seq<string>)
    ensures |r| >= 1
  {
    if s == [] then [""]
    else
      var rest := Split(s[1..]);
      if s[0] == ' ' then [""] + rest else [[s[0]] + rest[0]] + rest[1..]
  }

  /** The printed form `left -> right...`, with `ε` for an empty right side. */
  function Repr(p: Production): string
  {
    p.left + " -> " + RightText(p)
  }

  /** The part of `Repr(p)` after the arrow. */
  function RightText(p: Production): string
  {
    if p.right == [] then Epsilon else Join(p.right)
  }

  /** The printed form is the left side, the arrow, then the printed right side. */
  lemma ReprShape(p: Production)
    ensures var r := Repr(p);
            && |r| == |p.left| + 4 + |RightText(p)|
            && r[..|p.left|] == p.left && r[|p.left|..|p.left| + 4] == " -> " && r[|p.left| + 4..] == RightText(p)
  {
  }

  lemma {:induction false} SplitWord(w: string)
    requires ' ' !in w
    ensures Split(w) == [w]
    decreases |w|
  {
    if w != [] {
      SplitWord(w[1..]);
      assert [w[0]] + w[1..] == w;
    }
  }

  lemma {:induction false} SplitWordThen(w: string, t: string)
    requires ' ' !in w
    ensures Split(w + " " + t) == [w] + Split(t)
    decreases |w|
  {
    if w == [] {
      assert w + " " + t == [' '] + t;
      assert (w + " " + t)[1..] == t;
    } else {
      assert (w + " " + t)[1..] == w[1..] + " " + t;
      SplitWordThen(w[1..], t);
      assert [w[0]] + w[1..] == w;
    }
  }

  /** Splitting the joined list at its spaces gives the list back, when no symbol holds a space. */
  lemma {:induction false} SplitJoin(xs: seq<string>)
    requires xs != []
    requires forall i :: 0 <= i < |xs| ==> ' ' !in xs[i]
    ensures Split(Join(xs)) == xs
    decreases |xs|
  {
    if |xs| == 1 {
      SplitWord(xs[0]);
    } else {
      SplitJoin(xs[1..]);
      SplitWordThen(xs[0], Join(xs[1..]));
      assert [xs[0]] + xs[1..] == xs;
    }
  }

  /**
   * The printed right side of a production determines the right side when it
   * is non-empty and its symbols hold no space; an empty right side and the
   * one-symbol right side `ε` print alike.
   */
  lemma ReprRightSide(p: Production)
    requires p.right != []
    requires forall i :: 0 <= i < |p.right| ==> ' ' !in p.right[i]
    ensures Split(RightText(p)) == p.right
    ensures Repr(p.(right := [])) == Repr(p.(right := [Epsilon]))
  {
    assert RightText(p) == Join(p.right);
    SplitJoin(p.right);
  }

  // ---------------------------------------------------------------------------
  // Symbol classification.

  /**
   * `str.isupper` on one character, for the upper-case letters of six blocks
   * only: A-Z, U+00C0-U+00D6, U+00D8-U+00DE, U+0391-U+03A1, U+03A3-U+03AB
   * and U+0400-U+042F. Python also counts the other upper-case letters of
   * Unicode (Latin Extended, Armenian, Georgian, ...), which this omits.
   */
  predicate IsUpperChar(c: char)
  {
    ('A' <= c <= 'Z') || ('\U{c0}' <= c <= '\U{d6}') || ('\U{d8}' <= c <= '\U{de}')
    || ('\U{391}' <= c <= '\U{3a1}') || ('\U{3a3}' <= c <= '\U{3ab}') || ('\U{400}' <= c <= '\U{42f}')
  }

  /** The convention of `add_production`: a symbol whose first letter is upper case names a nonterminal. */
  predicate NamesNonTerminal(sym: string)
  {
    sym != [] && IsUpperChar(sym[0])
  }

  /** The other non-empty symbols, except `ε`, are terminals. */
  predicate NamesTerminal(sym: string)
  {
    sym != [] && !IsUpperChar(sym[0]) && sym != Epsilon
  }

  /** The right-side symbols of `right[..k]` that `add_production` records as nonterminals. */
  function NonTerminalsIn(right: seq<string>, k: nat): set<string>
    requires k <= |right|
  {
    if k == 0 then {} else NonTerminalsIn(right, k - 1) + (if NamesNonTerminal(right[k - 1]) then {right[k - 1]} else {})
  }

  /** The right-side symbols of `right[..k]` that `add_production` records as terminals. */
  function TerminalsIn(right: seq<string>, k: nat): set<string>
    requires k <= |right|
  {
    if k == 0 then {} else TerminalsIn(right, k - 1) + (if NamesTerminal(right[k - 1]) then {right[k - 1]} else {})
  }

  /**
   * What `add_production` records about a right side: every symbol of it is
   * either named a nonterminal, named a terminal, empty or `ε`, and the two
   * recorded sets are exactly the symbols of each kind.
   */
  lemma {:induction false} Classified(right: seq<string>, k: nat, sym: string)
    requires k <= |right|
    ensures sym in NonTerminalsIn(right, k) <==> sym in right[..k] && NamesNonTerminal(sym)
    ensures sym in TerminalsIn(right, k) <==> sym in right[..k] && NamesTerminal(sym)
    decreases k
  {
    if k > 0 {
      Classified(right, k - 1, sym);
      assert right[..k] == right[..k - 1] + [right[k - 1]];
    }
  }

  /** The productions of `ps` with left side `left`, in list order. */
  function ByLeft(ps: seq<Production>, left: string): (r: seq<Production>)
    ensures |r| <= |ps|
    ensures forall p :: p in r <==> p in ps && p.left == left
  {
    if ps == [] then []
    else (if ps[0].left == left then [ps[0]] else []) + ByLeft(ps[1..], left)
  }

  /** Filtering commutes with appending, so the order of the list is kept. */
  lemma {:induction false} ByLeftAppend(ps: seq<Production>, qs: seq<Production>, left: string)
    ensures ByLeft(ps + qs, left) == ByLeft(ps, left) + ByLeft(qs, left)
    decreases |ps|
  {
    if ps == [] {
      assert ps + qs == qs;
    } else {
      assert (ps + qs)[0] == ps[0] && (ps + qs)[1..] == ps[1..] + qs;
      ByLeftAppend(ps[1..], qs, left);
      var h := if ps[0].left == left then [ps[0]] else [];
      assert h + (ByLeft(ps[1..], left) + ByLeft(qs, left)) == (h + ByLeft(ps[1..], left)) + ByLeft(qs, left);
    }
  }

  // ---------------------------------------------------------------------------
  // Augmentation.

  /** Every production's id is its index in the list. */
  predicate Numbered(ps: seq<Production>)
  {
    forall i :: 0 <= i < |ps| ==> ps[i].id == i
  }

  /** `ps` with each production's id set to its index. */
  function Renumbered(ps: seq<Production>): (r: seq<Production>)
    ensures |r| == |ps| && Numbered(r)
    ensures forall i :: 0 <= i < |ps| ==> r[i].left == ps[i].left && r[i].right == ps[i].right
  {
    seq(|ps|, i requires 0 <= i < |ps| => Production(i, ps[i].left, ps[i].right))
  }

  /** Whether `augment` changes the list: it is non-empty and does not begin with an `S'` production. */
  predicate NeedsAugmenting(ps: seq<Production>)
  {
    ps != [] && ps[0].left != Augmented
  }

  /** The production list after `augment`. */
  function AugmentedList(ps: seq<Production>): seq<Production>
  {
    if NeedsAugmenting(ps) then Renumbered([Production(0, Augmented, [ps[0].left])] + ps) else ps
  }

  /**
   * `augment` on a list that needs it: `S' -> L` comes first, with `L` the old
   * first left side, then the old productions in order, each numbered by its
   * new index.
   */
  lemma AugmentShape(ps: seq<Production>)
    requires NeedsAugmenting(ps)
    ensures var r := AugmentedList(ps);
      |r| == |ps| + 1 && r[0] == Production(0, Augmented, [ps[0].left]) && Numbered(r)
      && forall i :: 0 <= i < |ps| ==> r[i + 1] == Production(i + 1, ps[i].left, ps[i].right)
  {
    var r := AugmentedList(ps);
    var q := [Production(0, Augmented, [ps[0].left])] + ps;
    assert r == Renumbered(q);
    forall i | 0 <= i < |ps| ensures r[i + 1] == Production(i + 1, ps[i].left, ps[i].right) {
      assert q[i + 1] == ps[i];
    }
  }

  /** Augmenting twice is augmenting once. */
  lemma AugmentIdempotent(ps: seq<Production>)
    ensures AugmentedList(AugmentedList(ps)) == AugmentedList(ps)
  {
    if NeedsAugmenting(ps) {
      AugmentShape(ps);
    }
  }

  /** The grammar object. */
  class Grammar {
    var productions: seq<Production>
    var startSymbol: string
    var terminals: set<string>
    var nonTerminals: set<string>

    /** An empty grammar with start symbol `S'`. */
    constructor ()
      ensures productions == [] && startSymbol == Augmented && terminals == {} && nonTerminals == {}
    {
      productions := [];
      startSymbol := Augmented;
      terminals := {};
      nonTerminals := {};
    }

    /** Ids are list indices, and every left side is a nonterminal. */
    predicate Valid()
      reads this
    {
      Numbered(productions) && forall i :: 0 <= i < |productions| ==> productions[i].left in nonTerminals
    }

    /**
     * `add_production`: appends `left -> right` numbered by the current count,
     * records `left` as a nonterminal and classifies each right-side symbol.
     */
    method AddProduction(left: string, right: seq<string>)
      modifies this
      ensures productions == old(productions) + [Production(|old(productions)|, left, right)]
      ensures nonTerminals == old(nonTerminals) + {left} + NonTerminalsIn(right, |right|)
      ensures terminals == old(terminals) + TerminalsIn(right, |right|)
      ensures startSymbol == old(startSymbol)
      ensures old(Valid()) ==> Valid()
    {
      var prod := Production(|productions|, left, right);
      productions := productions + [prod];
      nonTerminals := nonTerminals + {left};
      var k := 0;
      while k < |right|
        invariant 0 <= k <= |right|
        invariant productions == old(productions) + [prod] && startSymbol == old(startSymbol)
        invariant nonTerminals == old(nonTerminals) + {left} + NonTerminalsIn(right, k)
        invariant terminals == old(terminals) + TerminalsIn(right, k)
      {
        var symbol := right[k];
        if symbol != [] && IsUpperChar(symbol[0]) {
          nonTerminals := nonTerminals + {symbol};
        } else if symbol != [] && symbol != Epsilon {
          terminals := terminals + {symbol};
        }
        k := k + 1;
      }
    }

    /** `get_productions_by_left`: exactly the productions with that left side, in list order. */
    function GetProductionsByLeft(left: string): (r: seq<Production>)
      reads this
      ensures forall p :: p in r <==> p in productions && p.left == left
    {
      ByLeft(productions, left)
    }

    /**
     * `augment`: unless the list is empty or already starts with an `S'`
     * production, inserts `S' -> L` in front, renumbers every production by its
     * index, and records `S'` as the start symbol and a nonterminal.
     */
    method Augment()
      modifies this
      ensures productions == AugmentedList(old(productions))
      ensures terminals == old(terminals)
      ensures NeedsAugmenting(old(productions)) ==>
                startSymbol == Augmented && nonTerminals == old(nonTerminals) + {Augmented}
      ensures !NeedsAugmenting(old(productions)) ==>
                startSymbol == old(startSymbol) && nonTerminals == old(nonTerminals)
      ensures old(Valid()) ==> Valid()
    {
      if productions != [] && productions[0].left != Augmented {
        var originalStart := productions[0].left;
        var ps := [Production(0, Augmented, [originalStart])] + productions;
        var i := 0;
        while i < |ps|
          invariant 0 <= i <= |ps| && |ps| == |old(productions)| + 1
          invariant ps[..i] == Renumbered([Production(0, Augmented, [originalStart])] + old(productions))[..i]
          invariant ps[i..] == ([Production(0, Augmented, [originalStart])] + old(productions))[i..]
        {
          ps := ps[i := Production(i, ps[i].left, ps[i].right)];
          i := i + 1;
        }
        productions := ps;
        startSymbol := Augmented;
        nonTerminals := nonTerminals + {Augmented};
      }
    }
  }
}
