/**
 * The parser generator (`syntax/generator.py`): augments the grammar, then
 * runs FIRST/FOLLOW, the LR(1) collection, the LALR(1) merge and the table
 * synthesis in that order, keeping every intermediate result.
 */
module Generator {
  import opened Grammar
  import opened LrItem
  import opened FirstFollow
  import Lr1
  import Lalr
  import opened Table

  /**
   * Started from an empty goto table, the LR(1) collection only holds
   * transitions between its own states, which is what the LALR merge needs.
   */
  lemma GotoTargetsInRange(ps: seq<Production>, nts: set<string>, first: SetMap, symbols: set<string>,
                           states: seq<set<Item>>, g: map<(int, string), int>)
    requires ps != [] && Lr1.IsCollection(ps, nts, first, symbols, map[], states, g)
    ensures forall e :: e in g ==> 0 <= e.0 < |states| && 0 <= g[e] < |states|
  {
    var empty: map<(int, string), int> := map[];
    forall e | e in g ensures 0 <= e.0 < |states| && 0 <= g[e] < |states| {
      assert e !in empty;
    }
  }

  /** `ParserGenerator`: the grammar, its components and the results of the last `generate`. */
  class ParserGenerator {
    const grammar: Grammar
    const firstFollowCalc: FirstFollowCalculator
    var lr1Builder: Lr1.LR1Builder?
    const tableBuilder: TableBuilder
    var firstSets: SetMap
    var followSets: SetMap
    var actionTable: map<Key, Action>
    var gotoTable: map<Key, int>

    /** The components work on this generator's grammar. */
    predicate Wired()
    {
      firstFollowCalc.grammar == grammar && tableBuilder.grammar == grammar
    }

    /**
     * The grammar is augmented in place and `$` joins its terminals; the
     * components are created on it and every result starts empty.
     */
    constructor (grammar: Grammar)
      modifies grammar
      ensures this.grammar == grammar && Wired()
      ensures grammar.productions == AugmentedList(old(grammar.productions))
      ensures grammar.terminals == old(grammar.terminals) + {EndMarker}
      ensures NeedsAugmenting(old(grammar.productions)) ==>
                grammar.startSymbol == Augmented && grammar.nonTerminals == old(grammar.nonTerminals) + {Augmented}
      ensures !NeedsAugmenting(old(grammar.productions)) ==>
                grammar.startSymbol == old(grammar.startSymbol) && grammar.nonTerminals == old(grammar.nonTerminals)
      ensures old(grammar.Valid()) ==> grammar.Valid()
      ensures fresh(firstFollowCalc) && firstFollowCalc.firstSets == map[] && firstFollowCalc.followSets == map[]
      ensures fresh(tableBuilder) && tableBuilder.actionTable == map[] && tableBuilder.gotoTable == map[]
      ensures lr1Builder == null
      ensures firstSets == map[] && followSets == map[] && actionTable == map[] && gotoTable == map[]
    {
      grammar.Augment();
      grammar.terminals := grammar.terminals + {EndMarker};
      this.grammar := grammar;
      firstFollowCalc := new FirstFollowCalculator(grammar);
      lr1Builder := null;
      tableBuilder := new TableBuilder(grammar);
      firstSets, followSets := map[], map[];
      actionTable, gotoTable := map[], map[];
    }

    /**
     * Step 1 of `generate`: the FIRST and FOLLOW sets, computed by the
     * calculator and copied here; both are the least sets closed under their rules.
     */
    method ComputeSets()
      requires Wired() && grammar.Valid() && grammar.startSymbol in grammar.nonTerminals
      modifies this, firstFollowCalc
      ensures firstSets == firstFollowCalc.firstSets && followSets == firstFollowCalc.followSets
      ensures forall i :: 0 <= i < |grammar.productions| ==> FirstRule(firstSets, grammar.productions[i])
      ensures grammar.nonTerminals <= followSets.Keys && "$" in followSets[grammar.startSymbol]
      ensures forall n :: 0 <= n < |grammar.productions| ==>
                FollowRules(firstSets, followSets, grammar.productions[n], grammar.nonTerminals)
      ensures LeastFirstSets(grammar.productions, grammar.terminals, grammar.nonTerminals,
                             old(firstFollowCalc.firstSets), firstSets)
      ensures LeastFollowSets(firstSets, grammar.productions, grammar.nonTerminals, grammar.startSymbol,
                              old(firstFollowCalc.followSets), followSets)
      ensures lr1Builder == old(lr1Builder) && actionTable == old(actionTable) && gotoTable == old(gotoTable)
    {
      firstFollowCalc.ComputeFirstSets();
      firstFollowCalc.ComputeFollowSets();
      firstSets := firstFollowCalc.firstSets;
      followSets := firstFollowCalc.followSets;
    }

    /** Step 2 of `generate`: a new LR(1) builder on the grammar and the calculator, and its collection. */
    method BuildCollection() returns (lr1States: seq<set<Item>>, lr1Goto: map<(int, string), int>)
      requires Wired() && grammar.productions != [] && firstSets == firstFollowCalc.firstSets
      modifies this
      ensures lr1Builder != null && fresh(lr1Builder)
      ensures lr1Builder.states == lr1States && lr1Builder.gotoTable == lr1Goto
      ensures Lr1.IsCollection(grammar.productions, grammar.nonTerminals, firstSets,
                               grammar.terminals + grammar.nonTerminals, map[], lr1States, lr1Goto)
      ensures firstSets == old(firstSets) && followSets == old(followSets)
      ensures actionTable == old(actionTable) && gotoTable == old(gotoTable)
    {
      var builder := new Lr1.LR1Builder(grammar, firstFollowCalc);
      lr1Builder := builder;
      lr1States, lr1Goto := builder.Build();
    }

    /** Step 4 of `generate`: the table builder extends its tables from the LALR(1) states, and they are copied here. */
    method FillTables(lalrStates: seq<set<Item>>, lalrGoto: map<(int, string), int>) returns (ghost order: seq<(int, Item)>)
      requires Wired()
      modifies this, tableBuilder
      ensures Enumerates(lalrStates, order)
      ensures ActionsAfter(Candidates(grammar.terminals, lalrGoto, order), old(tableBuilder.actionTable), actionTable)
      ensures GotosAfter(grammar.terminals, grammar.nonTerminals, lalrGoto, order, old(tableBuilder.gotoTable), gotoTable)
      ensures actionTable == tableBuilder.actionTable && gotoTable == tableBuilder.gotoTable
      ensures firstSets == old(firstSets) && followSets == old(followSets) && lr1Builder == old(lr1Builder)
    {
      var actions, gotos;
      actions, gotos, order := tableBuilder.Build(lalrStates, lalrGoto);
      actionTable, gotoTable := actions, gotos;
    }

    /**
     * `generate`. The FIRST and FOLLOW sets are the least sets closed under
     * their rules; the LR(1) states and goto table (kept by a new LR(1)
     * builder) are the canonical collection; the LALR(1) states merge them by
     * core; the ACTION and GOTO tables are the table builder's, extended from
     * the LALR(1) states visited in the order `order`, and are returned as
     * well as kept. The start symbol must already have a FOLLOW set to put `$`
     * into, and the start item needs a first production.
     */
    method Generate()
      returns (actions: map<Key, Action>, gotos: map<Key, int>,
               lr1States: seq<set<Item>>, lr1Goto: map<(int, string), int>,
               lalrStates: seq<set<Item>>, lalrGoto: map<(int, string), int>,
               toLalr: map<int, int>, ghost picks: seq<map<(int, nat), Production>>,
               ghost order: seq<(int, Item)>)
      requires Wired() && grammar.Valid() && grammar.productions != [] && grammar.startSymbol in grammar.nonTerminals
      modifies this, firstFollowCalc, tableBuilder
      ensures firstSets == firstFollowCalc.firstSets && followSets == firstFollowCalc.followSets
      ensures forall i :: 0 <= i < |grammar.productions| ==> FirstRule(firstSets, grammar.productions[i])
      ensures grammar.nonTerminals <= followSets.Keys && "$" in followSets[grammar.startSymbol]
      ensures forall n :: 0 <= n < |grammar.productions| ==>
                FollowRules(firstSets, followSets, grammar.productions[n], grammar.nonTerminals)
      ensures LeastFirstSets(grammar.productions, grammar.terminals, grammar.nonTerminals,
                             old(firstFollowCalc.firstSets), firstSets)
      ensures LeastFollowSets(firstSets, grammar.productions, grammar.nonTerminals, grammar.startSymbol,
                              old(firstFollowCalc.followSets), followSets)
      ensures lr1Builder != null && fresh(lr1Builder)
      ensures lr1Builder.states == lr1States && lr1Builder.gotoTable == lr1Goto
      ensures Lr1.IsCollection(grammar.productions, grammar.nonTerminals, firstSets,
                               grammar.terminals + grammar.nonTerminals, map[], lr1States, lr1Goto)
      ensures |lalrStates| == |Lalr.Distinct(Lalr.StateCores(lr1States))| == |picks|
      ensures forall g :: 0 <= g < |lalrStates| ==>
                Lalr.MergedGroup(lr1States, Lalr.IndicesOf(Lalr.StateCores(lr1States),
                                                           Lalr.Distinct(Lalr.StateCores(lr1States))[g]),
                                 picks[g], lalrStates[g])
      ensures forall i :: i in toLalr <==> 0 <= i < |lr1States|
      ensures forall e :: e in lr1Goto ==> e.0 in toLalr && (toLalr[e.0], e.1) in lalrGoto
      ensures forall k :: k in lalrGoto ==> Lalr.Witnessed(lr1Goto, toLalr, k, lalrGoto[k])
      ensures Enumerates(lalrStates, order)
      ensures ActionsAfter(Candidates(grammar.terminals, lalrGoto, order), old(tableBuilder.actionTable), actionTable)
      ensures GotosAfter(grammar.terminals, grammar.nonTerminals, lalrGoto, order, old(tableBuilder.gotoTable), gotoTable)
      ensures actionTable == tableBuilder.actionTable && gotoTable == tableBuilder.gotoTable
      ensures actions == actionTable && gotos == gotoTable
    {
      ComputeSets();
      ghost var ps, nts, ts := grammar.productions, grammar.nonTerminals, grammar.terminals;
      lr1States, lr1Goto := BuildCollection();
      GotoTargetsInRange(ps, nts, firstSets, ts + nts, lr1States, lr1Goto);

      lalrStates, lalrGoto, toLalr, picks := Lalr.Merge(lr1States, lr1Goto);

      order := FillTables(lalrStates, lalrGoto);
      actions, gotos := actionTable, gotoTable;
      assert grammar.productions == ps && grammar.nonTerminals == nts && grammar.terminals == ts;
    }
  }
}
