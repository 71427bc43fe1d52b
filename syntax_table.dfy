/**
 * ACTION and GOTO table synthesis (`syntax/table_builder.py`). Every item of
 * every LALR(1) state proposes at most one table entry: a shift for a
 * terminal after the dot with a defined goto, a GOTO entry for a
 * nonterminal after the dot with a defined goto, accept for `[S' -> S·, $]`
 * and a reduce for any other completed item. The first action written for
 * a key stays, except that accept overwrites whatever is there.
 */
module Table {
  import opened Wrappers
  import opened FiniteSets
  import opened Grammar
  import opened LrItem

  /** The end-of-input terminal. */
  const EndMarker: string := "$"

  /**
   * An ACTION entry: `('shift', j)`, `('reduce', production id)` or
   * `('accept', 0)`; `Other` stands for any other kind a table handed to the
   * parser might hold.
   */
  datatype Action = Shift(target: int) | Reduce(production: int) | Accept | Other(kind: string, value: int)

  type Key = (int, string)

  /** The completed item `[S' -> S·, $]`: it yields accept rather than a reduce. */
  predicate AcceptsAt(it: Item)
  {
    it.production.left == Augmented && it.lookahead == EndMarker
  }

  /** The ACTION entry item `it` of state `i` proposes, if any. */
  function Candidate(terminals: set<string>, lalrGoto: map<Key, int>, i: int, it: Item): (r: Option<(Key, Action)>)
    ensures r.Some? && r.value.1.Shift? ==>
              it.dot < |it.production.right| && r.value.0 == (i, it.production.right[it.dot])
              && r.value.0.1 in terminals && r.value.0 in lalrGoto && r.value.1.target == lalrGoto[r.value.0]
    ensures r.Some? && r.value.1.Reduce? ==>
              r.value.0 == (i, it.lookahead) && it.dot >= |it.production.right| && !AcceptsAt(it)
              && r.value.1.production == it.production.id
    ensures r.Some? && r.value.1.Accept? ==> r.value.0 == (i, EndMarker) && it.dot >= |it.production.right| && AcceptsAt(it)
    ensures r.Some? ==> !r.value.1.Other?
    ensures it.dot >= |it.production.right| ==> r.Some?
  {
    match it.NextSymbol()
    case Some(a) =>
      if a in terminals && (i, a) in lalrGoto then Some(((i, a), Shift(lalrGoto[(i, a)]))) else None
    case None =>
      if AcceptsAt(it) then Some(((i, EndMarker), Accept)) else Some(((i, it.lookahead), Reduce(it.production.id)))
  }

  /** The proposals of the visited (state id, item) pairs, in visiting order. */
  function Candidates(terminals: set<string>, lalrGoto: map<Key, int>, order: seq<(int, Item)>): (r: seq<Option<(Key, Action)>>)
    ensures |r| == |order|
  {
    if order == [] then []
    else Candidates(terminals, lalrGoto, order[..|order| - 1])
         + [Candidate(terminals, lalrGoto, order[|order| - 1].0, order[|order| - 1].1)]
  }

  lemma {:induction false} CandidatesAt(terminals: set<string>, lalrGoto: map<Key, int>, order: seq<(int, Item)>)
    ensures forall n :: 0 <= n < |order| ==>
              Candidates(terminals, lalrGoto, order)[n] == Candidate(terminals, lalrGoto, order[n].0, order[n].1)
  {
    if order != [] {
      var init := order[..|order| - 1];
      CandidatesAt(terminals, lalrGoto, init);
      forall n | 0 <= n < |init| ensures init[n] == order[n] {
      }
    }
  }

  /** The first action proposed for key `k`, if any. */
  function FirstFor(cs: seq<Option<(Key, Action)>>, k: Key): Option<Action>
  {
    if cs == [] then None
    else
      var f := FirstFor(cs[..|cs| - 1], k);
      if f.Some? then f
      else if cs[|cs| - 1].Some? && cs[|cs| - 1].value.0 == k then Some(cs[|cs| - 1].value.1)
      else None
  }

  /** `FirstFor` is the action of the earliest proposal for the key; there is none exactly when nothing proposes it. */
  lemma {:induction false} FirstForIsFirst(cs: seq<Option<(Key, Action)>>, k: Key)
    ensures FirstFor(cs, k).Some? ==>
              exists n :: 0 <= n < |cs| && cs[n] == Some((k, FirstFor(cs, k).value))
                          && forall m :: 0 <= m < n ==> !(cs[m].Some? && cs[m].value.0 == k)
    ensures FirstFor(cs, k).None? ==> forall n :: 0 <= n < |cs| ==> !(cs[n].Some? && cs[n].value.0 == k)
  {
    if cs != [] {
      var init := cs[..|cs| - 1];
      FirstForIsFirst(init, k);
      forall n | 0 <= n < |init| ensures init[n] == cs[n] {
      }
      if FirstFor(init, k).Some? {
        var n :| 0 <= n < |init| && init[n] == Some((k, FirstFor(init, k).value))
                 && forall m :: 0 <= m < n ==> !(init[m].Some? && init[m].value.0 == k);
        assert cs[n] == Some((k, FirstFor(cs, k).value));
      } else if FirstFor(cs, k).Some? {
        assert cs[|init|] == Some((k, FirstFor(cs, k).value));
      }
    }
  }

  /**
   * When every proposal for a key agrees, the order of the items does not
   * matter: that action is the one written.
   */
  lemma NoConflictNoOrder(cs: seq<Option<(Key, Action)>>, k: Key, a: Action)
    requires exists n :: 0 <= n < |cs| && cs[n] == Some((k, a))
    requires forall n :: 0 <= n < |cs| && cs[n].Some? && cs[n].value.0 == k ==> cs[n].value.1 == a
    ensures FirstFor(cs, k) == Some(a)
  {
    FirstForIsFirst(cs, k);
  }

  /**
   * The ACTION table after the proposals `cs`, starting from `at0`: a key is
   * present when it was or when something proposed it; its action is accept
   * if accept was proposed for it, otherwise the action it already had,
   * otherwise the first action proposed for it.
   */
  ghost predicate ActionsAfter(cs: seq<Option<(Key, Action)>>, at0: map<Key, Action>, at: map<Key, Action>)
  {
    && (forall k :: k in at <==> k in at0 || FirstFor(cs, k).Some?)
    && (forall k :: k in at ==>
          at[k] == if Some((k, Accept)) in cs then Accept else if k in at0 then at0[k] else FirstFor(cs, k).value)
  }

  /** Some visited item of state k.0 has nonterminal k.1 after the dot, and the LALR goto is defined there. */
  predicate GotoProposed(terminals: set<string>, nts: set<string>, lalrGoto: map<Key, int>, order: seq<(int, Item)>,
                         k: Key)
  {
    exists p :: p in order && p.0 == k.0 && p.1.NextSymbol() == Some(k.1) && k.1 !in terminals && k.1 in nts
                && k in lalrGoto
  }

  /** The GOTO table after the visited items, starting from `gt0`: proposed keys take the LALR goto. */
  ghost predicate GotosAfter(terminals: set<string>, nts: set<string>, lalrGoto: map<Key, int>, order: seq<(int, Item)>,
                       gt0: map<Key, int>, gt: map<Key, int>)
  {
    && (forall k :: k in gt <==> k in gt0 || GotoProposed(terminals, nts, lalrGoto, order, k))
    && (forall k :: k in gt ==> gt[k] == if GotoProposed(terminals, nts, lalrGoto, order, k) then lalrGoto[k] else gt0[k])
  }

  /**
   * The body of the item loop of `build` for item `it` of state `i`: a
   * terminal after the dot with a defined goto proposes a shift, written
   * unless the key is taken; a nonterminal after the dot with a defined
   * goto writes the GOTO entry; a completed `[S' -> S·, $]` writes accept
   * over anything; any other completed item proposes a reduce, written
   * unless the key is taken.
   */
  method VisitItem(terminals: set<string>, nts: set<string>, lalrGoto: map<Key, int>, at0: map<Key, Action>,
                   gt0: map<Key, int>, i: int, it: Item)
    returns (at: map<Key, Action>, gt: map<Key, int>)
    ensures var c := Candidate(terminals, lalrGoto, i, it);
            && (forall k :: k in at <==> k in at0 || (c.Some? && c.value.0 == k))
            && (forall k :: k in at ==>
                  at[k] == if c == Some((k, Accept)) then Accept else if k in at0 then at0[k] else c.value.1)
    ensures forall k :: k in gt <==> k in gt0 || GotoProposed(terminals, nts, lalrGoto, [(i, it)], k)
    ensures forall k :: k in gt ==>
              gt[k] == if GotoProposed(terminals, nts, lalrGoto, [(i, it)], k) then lalrGoto[k] else gt0[k]
  {
    at, gt := at0, gt0;
    var nextSym := it.NextSymbol();
    if nextSym.Some? {
      var a := nextSym.value;
      if a in terminals {
        if (i, a) in lalrGoto {
          var action := Shift(lalrGoto[(i, a)]);
          if (i, a) !in at {
            at := at[(i, a) := action];
          }
        }
      } else if a in nts {
        if (i, a) in lalrGoto {
          gt := gt[(i, a) := lalrGoto[(i, a)]];
          assert GotoProposed(terminals, nts, lalrGoto, [(i, it)], (i, a));
        }
      }
    } else {
      if it.production.left == Augmented && it.lookahead == EndMarker {
        at := at[(i, EndMarker) := Accept];
      } else {
        var action := Reduce(it.production.id);
        if (i, it.lookahead) !in at {
          at := at[(i, it.lookahead) := action];
        }
      }
    }
  }

  /** Visiting one more item extends the ACTION characterisation by its proposal. */
  lemma ActionsStep(cs: seq<Option<(Key, Action)>>, c: Option<(Key, Action)>, at0: map<Key, Action>,
                    at1: map<Key, Action>, at: map<Key, Action>)
    requires ActionsAfter(cs, at0, at1)
    requires forall k :: k in at <==> k in at1 || (c.Some? && c.value.0 == k)
    requires forall k :: k in at ==> at[k] == if c == Some((k, Accept)) then Accept else if k in at1 then at1[k] else c.value.1
    ensures ActionsAfter(cs + [c], at0, at)
  {
    var cs' := cs + [c];
    assert cs'[..|cs|] == cs;
    forall k ensures FirstFor(cs', k) == if FirstFor(cs, k).Some? then FirstFor(cs, k)
                                        else if c.Some? && c.value.0 == k then Some(c.value.1) else None
    {
    }
    forall k ensures Some((k, Accept)) in cs' <==> Some((k, Accept)) in cs || c == Some((k, Accept)) {
    }
    forall k | FirstFor(cs, k).None? ensures Some((k, Accept)) !in cs {
      FirstForIsFirst(cs, k);
    }
  }

  /** Visiting one more item extends the GOTO characterisation by its proposal. */
  lemma GotosStep(terminals: set<string>, nts: set<string>, lalrGoto: map<Key, int>, order: seq<(int, Item)>,
                  p: (int, Item), gt0: map<Key, int>, gt1: map<Key, int>, gt: map<Key, int>)
    requires GotosAfter(terminals, nts, lalrGoto, order, gt0, gt1)
    requires forall k :: k in gt <==> k in gt1 || GotoProposed(terminals, nts, lalrGoto, [p], k)
    requires forall k :: k in gt ==> gt[k] == if GotoProposed(terminals, nts, lalrGoto, [p], k) then lalrGoto[k] else gt1[k]
    ensures GotosAfter(terminals, nts, lalrGoto, order + [p], gt0, gt)
  {
    var order' := order + [p];
    forall k ensures GotoProposed(terminals, nts, lalrGoto, order', k) <==>
                     GotoProposed(terminals, nts, lalrGoto, order, k) || GotoProposed(terminals, nts, lalrGoto, [p], k)
    {
      if GotoProposed(terminals, nts, lalrGoto, order', k) {
        var q :| q in order' && q.0 == k.0 && q.1.NextSymbol() == Some(k.1) && k.1 !in terminals && k.1 in nts
                 && k in lalrGoto;
        if q !in order {
          assert q in [p];
        }
      }
    }
  }

  lemma CandidatesAppend(terminals: set<string>, lalrGoto: map<Key, int>, order: seq<(int, Item)>, p: (int, Item))
    ensures Candidates(terminals, lalrGoto, order + [p])
            == Candidates(terminals, lalrGoto, order) + [Candidate(terminals, lalrGoto, p.0, p.1)]
  {
    assert (order + [p])[..|order|] == order;
  }

  /** The items of one state, each paired with the state id. */
  function Tagged(i: int, items: seq<Item>): (r: seq<(int, Item)>)
    ensures |r| == |items| && forall n :: 0 <= n < |items| ==> r[n] == (i, items[n])
  {
    if items == [] then [] else Tagged(i, items[..|items| - 1]) + [(i, items[|items| - 1])]
  }

  /** The items of the states, listed state by state in visiting order. */
  ghost predicate Enumerates(states: seq<set<Item>>, order: seq<(int, Item)>)
  {
    && (forall p :: p in order <==> 0 <= p.0 < |states| && p.1 in states[p.0])
    && (forall a, b :: 0 <= a < b < |order| ==> order[a].0 <= order[b].0)
  }

  /** The item loop for state `i`, in the arbitrary order `items` gives. */
  method VisitState(terminals: set<string>, nts: set<string>, lalrGoto: map<Key, int>, ghost at0: map<Key, Action>,
                    ghost gt0: map<Key, int>, ghost order0: seq<(int, Item)>, at1: map<Key, Action>,
                    gt1: map<Key, int>, i: int, items: seq<Item>)
    returns (at: map<Key, Action>, gt: map<Key, int>, ghost order: seq<(int, Item)>)
    requires ActionsAfter(Candidates(terminals, lalrGoto, order0), at0, at1)
    requires GotosAfter(terminals, nts, lalrGoto, order0, gt0, gt1)
    ensures ActionsAfter(Candidates(terminals, lalrGoto, order), at0, at)
    ensures GotosAfter(terminals, nts, lalrGoto, order, gt0, gt)
    ensures order == order0 + Tagged(i, items)
  {
    at, gt, order := at1, gt1, order0;
    var j := 0;
    while j < |items|
      invariant 0 <= j <= |items|
      invariant ActionsAfter(Candidates(terminals, lalrGoto, order), at0, at)
      invariant GotosAfter(terminals, nts, lalrGoto, order, gt0, gt)
      invariant order == order0 + Tagged(i, items[..j])
    {
      var at2, gt2 := VisitItem(terminals, nts, lalrGoto, at, gt, i, items[j]);
      CandidatesAppend(terminals, lalrGoto, order, (i, items[j]));
      ActionsStep(Candidates(terminals, lalrGoto, order), Candidate(terminals, lalrGoto, i, items[j]), at0, at, at2);
      GotosStep(terminals, nts, lalrGoto, order, (i, items[j]), gt0, gt, gt2);
      assert items[..j + 1][..j] == items[..j];
      at, gt, order := at2, gt2, order + [(i, items[j])];
      j := j + 1;
    }
    assert items[..j] == items;
  }

  /** Appending the items of state `i` to an enumeration of the states before it enumerates one more state. */
  lemma EnumerateNext(states: seq<set<Item>>, order0: seq<(int, Item)>, i: int, items: seq<Item>)
    requires 0 <= i < |states| && Enumerates(states[..i], order0)
    requires forall it :: it in items <==> it in states[i]
    ensures Enumerates(states[..i + 1], order0 + Tagged(i, items))
  {
    var order := order0 + Tagged(i, items);
    forall p ensures p in order <==> 0 <= p.0 < i + 1 && p.1 in states[..i + 1][p.0] {
      if p in order && p !in order0 {
        var n :| 0 <= n < |order| && order[n] == p;
        assert order[n] == (i, items[n - |order0|]);
      }
      if 0 <= p.0 < i + 1 && p.1 in states[..i + 1][p.0] && p.0 == i {
        var n :| 0 <= n < |items| && items[n] == p.1;
        assert order[|order0| + n] == p;
      }
    }
    forall a, b | 0 <= a < b < |order| ensures order[a].0 <= order[b].0 {
      if a < |order0| {
        assert order0[a] in order0;
      }
    }
  }

  /**
   * `build` on tables `at0`/`gt0`: the states in order, the items of each in
   * some order, recorded in `order`. The ACTION table holds, for each key,
   * accept if an accept was proposed, otherwise what it held before,
   * otherwise the first action proposed; the GOTO table holds the LALR goto
   * for every key some item proposed and is otherwise as before.
   */
  method BuildTables(states: seq<set<Item>>, lalrGoto: map<Key, int>, terminals: set<string>, nts: set<string>,
                     at0: map<Key, Action>, gt0: map<Key, int>)
    returns (at: map<Key, Action>, gt: map<Key, int>, ghost order: seq<(int, Item)>)
    ensures Enumerates(states, order)
    ensures ActionsAfter(Candidates(terminals, lalrGoto, order), at0, at)
    ensures GotosAfter(terminals, nts, lalrGoto, order, gt0, gt)
  {
    var at1, gt1 := at0, gt0;
    ghost var order1: seq<(int, Item)> := [];
    var i := 0;
    while i < |states|
      invariant 0 <= i <= |states| && Enumerates(states[..i], order1)
      invariant ActionsAfter(Candidates(terminals, lalrGoto, order1), at0, at1)
      invariant GotosAfter(terminals, nts, lalrGoto, order1, gt0, gt1)
    {
      var items := ToSeq(states[i]);
      EnumerateNext(states, order1, i, items);
      at1, gt1, order1 := VisitState(terminals, nts, lalrGoto, at0, gt0, order1, at1, gt1, i, items);
      i := i + 1;
    }
    assert states[..i] == states;
    at, gt, order := at1, gt1, order1;
  }

  // ---------------------------------------------------------------------------
  // What the tables hold.

  /**
   * Starting from empty tables, every ACTION entry is proposed by an item
   * of its state: a shift to the LALR goto on a terminal after the dot, a
   * reduce by the production of a completed item at its lookahead, or
   * accept for `[S' -> S·, $]`.
   */
  lemma ActionsJustified(states: seq<set<Item>>, lalrGoto: map<Key, int>, terminals: set<string>,
                         order: seq<(int, Item)>, at: map<Key, Action>, k: Key)
    requires Enumerates(states, order) && ActionsAfter(Candidates(terminals, lalrGoto, order), map[], at)
    requires k in at
    ensures 0 <= k.0 < |states|
    ensures exists it :: it in states[k.0] && Candidate(terminals, lalrGoto, k.0, it) == Some((k, at[k]))
  {
    var cs := Candidates(terminals, lalrGoto, order);
    CandidatesAt(terminals, lalrGoto, order);
    FirstForIsFirst(cs, k);
    var n :| 0 <= n < |cs| && cs[n] == Some((k, if Some((k, Accept)) in cs then Accept else FirstFor(cs, k).value));
    assert order[n] in order;
  }

  /** Accept written for `[S' -> S·, $]` is never overwritten, whatever came before. */
  lemma AcceptWins(states: seq<set<Item>>, lalrGoto: map<Key, int>, terminals: set<string>,
                   order: seq<(int, Item)>, at0: map<Key, Action>, at: map<Key, Action>, i: int, it: Item)
    requires Enumerates(states, order) && ActionsAfter(Candidates(terminals, lalrGoto, order), at0, at)
    requires 0 <= i < |states| && it in states[i] && it.dot >= |it.production.right| && AcceptsAt(it)
    ensures (i, EndMarker) in at && at[(i, EndMarker)] == Accept
  {
    CandidatesAt(terminals, lalrGoto, order);
    var n :| 0 <= n < |order| && order[n] == (i, it);
    var cs := Candidates(terminals, lalrGoto, order);
    assert cs[n] == Some(((i, EndMarker), Accept));
    FirstForIsFirst(cs, (i, EndMarker));
  }

  /**
   * Every item that proposes an action gets an entry at its key; an entry
   * that was there before is kept unless accept replaces it.
   */
  lemma ProposalsCovered(states: seq<set<Item>>, lalrGoto: map<Key, int>, terminals: set<string>,
                         order: seq<(int, Item)>, at0: map<Key, Action>, at: map<Key, Action>, i: int, it: Item)
    requires Enumerates(states, order) && ActionsAfter(Candidates(terminals, lalrGoto, order), at0, at)
    requires 0 <= i < |states| && it in states[i] && Candidate(terminals, lalrGoto, i, it).Some?
    ensures Candidate(terminals, lalrGoto, i, it).value.0 in at
  {
    CandidatesAt(terminals, lalrGoto, order);
    var n :| 0 <= n < |order| && order[n] == (i, it);
    FirstForIsFirst(Candidates(terminals, lalrGoto, order), Candidate(terminals, lalrGoto, i, it).value.0);
  }

  /** Every GOTO entry written is the LALR goto of its key, on a nonterminal after the dot of an item of that state. */
  lemma GotosJustified(states: seq<set<Item>>, lalrGoto: map<Key, int>, terminals: set<string>, nts: set<string>,
                       order: seq<(int, Item)>, gt: map<Key, int>, k: Key)
    requires Enumerates(states, order) && GotosAfter(terminals, nts, lalrGoto, order, map[], gt)
    requires k in gt
    ensures k in lalrGoto && gt[k] == lalrGoto[k] && k.1 in nts && k.1 !in terminals && 0 <= k.0 < |states|
    ensures exists it :: it in states[k.0] && it.NextSymbol() == Some(k.1)
  {
    var p :| p in order && p.0 == k.0 && p.1.NextSymbol() == Some(k.1) && k.1 !in terminals && k.1 in nts
             && k in lalrGoto;
  }

  /**
   * `TableBuilder`: the grammar and the ACTION and GOTO tables, kept as
   * fields and filled further by every `build`.
   */
  class TableBuilder {
    const grammar: Grammar
    var actionTable: map<Key, Action>
    var gotoTable: map<Key, int>

    constructor (grammar: Grammar)
      ensures this.grammar == grammar && actionTable == map[] && gotoTable == map[]
    {
      this.grammar := grammar;
      actionTable := map[];
      gotoTable := map[];
    }

    /**
     * `build`: the tables are extended from the LALR states and goto over
     * the grammar's terminals and nonterminals, visiting the items in the
     * order `order`; the tables are returned as well as kept.
     */
    method Build(lalrStates: seq<set<Item>>, lalrGoto: map<Key, int>)
      returns (actions: map<Key, Action>, gotos: map<Key, int>, ghost order: seq<(int, Item)>)
      modifies this
      ensures Enumerates(lalrStates, order)
      ensures ActionsAfter(Candidates(grammar.terminals, lalrGoto, order), old(actionTable), actionTable)
      ensures GotosAfter(grammar.terminals, grammar.nonTerminals, lalrGoto, order, old(gotoTable), gotoTable)
      ensures actions == actionTable && gotos == gotoTable
    {
      actionTable, gotoTable, order := BuildTables(lalrStates, lalrGoto, grammar.terminals, grammar.nonTerminals,
                                                   actionTable, gotoTable);
      actions, gotos := actionTable, gotoTable;
    }
  }
}
