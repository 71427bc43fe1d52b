/**
 * LR(1) items (`syntax/lr_item.py`): `[A -> α·β, a]`, an immutable record of
 * a production, a dot position and a lookahead terminal.
 */
module LrItem {
  import opened Wrappers
  import opened Grammar

  /** Items are values: two items are equal exactly when production, dot and lookahead are. */
  datatype Item = Item(production: Production, dot: nat, lookahead: string)
  {
    /** `next_symbol`: the symbol right after the dot, or None at the end. */
    function NextSymbol(): (r: Option<string>)
      ensures r.Some? <==> dot < |production.right|
      ensures r.Some? ==> r.value == production.right[dot]
    {
      if dot < |production.right| then Some(production.right[dot]) else None
    }

    /** `advance`: the dot one symbol further on; production and lookahead stay. */
    function Advance(): (r: Item)
      ensures r.production == production && r.lookahead == lookahead && r.dot == dot + 1
    {
      Item(production, dot + 1, lookahead)
    }

    /** `core`: the production id and dot position, without the lookahead. */
    function Core(): (r: (int, nat))
      ensures r.0 == production.id && r.1 == dot
    {
      (production.id, dot)
    }
  }

  /** The items reached from `i` by `n` advances. */
  function AdvancedBy(i: Item, n: nat): Item
  {
    if n == 0 then i else AdvancedBy(i, n - 1).Advance()
  }

  /**
   * Advancing walks the right side: after `n` advances from the dot the next
   * symbol is `right[dot + n]` while one remains, and the item is complete
   * (no next symbol) once the dot has passed the whole right side.
   */
  lemma {:induction false} AdvanceWalks(i: Item, n: nat)
    ensures AdvancedBy(i, n) == Item(i.production, i.dot + n, i.lookahead)
    ensures i.dot + n < |i.production.right| ==> AdvancedBy(i, n).NextSymbol() == Some(i.production.right[i.dot + n])
    ensures i.dot + n >= |i.production.right| ==> AdvancedBy(i, n).NextSymbol() == None
  {
    if n > 0 {
      AdvanceWalks(i, n - 1);
    }
  }

  /**
   * Two items have the same core exactly when they agree on production id and
   * dot; the lookahead never matters, and advancing keeps equal cores equal.
   */
  lemma CoreIgnoresLookahead(i: Item, j: Item)
    ensures i.Core() == j.Core() <==> i.production.id == j.production.id && i.dot == j.dot
    ensures i.Core() == j.Core() ==> i.Advance().Core() == j.Advance().Core()
    ensures i.Core() == i.(lookahead := j.lookahead).Core()
  {
  }

  /** For the right side `ε`, the symbol after the dot at position 0 is the literal `ε`. */
  lemma EpsilonRightSide(p: Production, a: string)
    requires p.right == [Epsilon]
    ensures Item(p, 0, a).NextSymbol() == Some(Epsilon)
    ensures Item(p, 1, a).NextSymbol() == None
  {
  }
}
