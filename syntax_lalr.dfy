/**
 * LALR(1) merging (`syntax/lalr_builder.py`): LR(1) states with the same
 * core, the set of (production id, dot) pairs of their items, are merged
 * into one state carrying the union of their lookaheads, and the LR(1) goto
 * table is carried over to the merged states.
 */
module Lalr {
  import opened Wrappers
  import opened FiniteSets
  import opened Grammar
  import opened LrItem

  /** The core of an item set: its items without their lookaheads. */
  function CoreOf(state: set<Item>): set<(int, nat)>
  {
    set it | it in state :: it.Core()
  }

  /** The core of every state, in state order. */
  function StateCores(states: seq<set<Item>>): (r: seq<set<(int, nat)>>)
    ensures |r| == |states| && forall i :: 0 <= i < |states| ==> r[i] == CoreOf(states[i])
  {
    seq(|states|, i requires 0 <= i < |states| => CoreOf(states[i]))
  }

  /** The distinct entries of `cs`, in order of first appearance: the keys of a dictionary filled from `cs`. */
  function Distinct<T(==)>(cs: seq<T>): seq<T>
  {
    if cs == [] then [] else
      var d := Distinct(cs[..|cs| - 1]);
      if cs[|cs| - 1] in d then d else d + [cs[|cs| - 1]]
  }

  /** `Distinct` keeps each entry once, loses none, and is no longer than its input. */
  lemma {:induction false} DistinctFacts<T>(cs: seq<T>)
    ensures forall x :: x in Distinct(cs) <==> x in cs
    ensures forall i, j :: 0 <= i < j < |Distinct(cs)| ==> Distinct(cs)[i] != Distinct(cs)[j]
    ensures |Distinct(cs)| <= |cs|
  {
    if cs != [] {
      var init := cs[..|cs| - 1];
      DistinctFacts(init);
      assert cs == init + [cs[|cs| - 1]];
    }
  }

  /** The positions of `c` in `cs`, ascending. */
  function IndicesOf<T(==)>(cs: seq<T>, c: T): seq<int>
  {
    if cs == [] then [] else
      var d := IndicesOf(cs[..|cs| - 1], c);
      if cs[|cs| - 1] == c then d + [|cs| - 1] else d
  }

  /** `IndicesOf` lists exactly the positions holding `c`, in ascending order; it is empty exactly when `c` is absent. */
  lemma {:induction false} IndicesFacts<T>(cs: seq<T>, c: T)
    ensures forall i :: i in IndicesOf(cs, c) <==> 0 <= i < |cs| && cs[i] == c
    ensures forall i, j :: 0 <= i < j < |IndicesOf(cs, c)| ==> IndicesOf(cs, c)[i] < IndicesOf(cs, c)[j]
    ensures IndicesOf(cs, c) == [] <==> c !in cs
  {
    if cs != [] {
      var init := cs[..|cs| - 1];
      IndicesFacts(init, c);
      assert cs == init + [cs[|cs| - 1]];
      forall i | 0 <= i < |cs| - 1 ensures cs[i] == init[i] {
      }
      var d := IndicesOf(init, c);
      forall k | 0 <= k < |d| ensures d[k] < |cs| - 1 {
        assert d[k] in d;
      }
    }
  }

  /** The position of `c` in `cs`, or -1. */
  function IndexOf<T(==)>(cs: seq<T>, c: T): (r: int)
    ensures -1 <= r < |cs|
    ensures r == -1 <==> c !in cs
    ensures r >= 0 ==> cs[r] == c
  {
    if cs == [] then -1
    else if cs[|cs| - 1] == c then |cs| - 1
    else IndexOf(cs[..|cs| - 1], c)
  }

  /** In a sequence without repetitions the position of an entry is unique. */
  lemma IndexOfUnique<T>(cs: seq<T>, i: int)
    requires forall a, b :: 0 <= a < b < |cs| ==> cs[a] != cs[b]
    requires 0 <= i < |cs|
    ensures IndexOf(cs, cs[i]) == i
  {
  }

  /** Every id of `ids` names a state. */
  predicate InRange(states: seq<set<Item>>, ids: seq<int>)
  {
    forall k :: 0 <= k < |ids| ==> 0 <= ids[k] < |states|
  }

  /** Every item of the states named by `ids`. */
  function Union(states: seq<set<Item>>, ids: seq<int>): set<Item>
    requires InRange(states, ids)
  {
    if ids == [] then {} else Union(states, ids[..|ids| - 1]) + states[ids[|ids| - 1]]
  }

  lemma {:induction false} UnionMembers(states: seq<set<Item>>, ids: seq<int>)
    requires InRange(states, ids)
    ensures forall y :: y in Union(states, ids) <==> exists k :: 0 <= k < |ids| && y in states[ids[k]]
  {
    if ids != [] {
      var init := ids[..|ids| - 1];
      UnionMembers(states, init);
      forall k | 0 <= k < |init| ensures init[k] == ids[k] {
      }
    }
  }

  lemma UnionStep(states: seq<set<Item>>, ids: seq<int>, k: int)
    requires InRange(states, ids) && 0 <= k < |ids|
    ensures Union(states, ids[..k + 1]) == Union(states, ids[..k]) + states[ids[k]]
  {
    assert ids[..k + 1][..k] == ids[..k];
  }

  /** The lookaheads the items of `u` with core `c` carry. */
  function LookaheadsAt(u: set<Item>, c: (int, nat)): set<string>
  {
    set y | y in u && y.Core() == c :: y.lookahead
  }

  /** The `item_map` of a merge: for each core of `seen`, the lookaheads its items carry. */
  predicate ByCore(m: map<(int, nat), set<string>>, seen: set<Item>)
  {
    m.Keys == CoreOf(seen) && forall c :: c in m ==> m[c] == LookaheadsAt(seen, c)
  }

  /** Recording one more item keeps the `item_map` exact. */
  lemma ByCoreAdd(m: map<(int, nat), set<string>>, seen: set<Item>, y: Item)
    requires ByCore(m, seen)
    ensures ByCore(m[y.Core() := (if y.Core() in m then m[y.Core()] else {}) + {y.lookahead}], seen + {y})
  {
    var m1 := m[y.Core() := (if y.Core() in m then m[y.Core()] else {}) + {y.lookahead}];
    assert CoreOf(seen + {y}) == CoreOf(seen) + {y.Core()};
    forall c | c in m1 ensures m1[c] == LookaheadsAt(seen + {y}, c) {
      if c != y.Core() {
        assert LookaheadsAt(seen + {y}, c) == LookaheadsAt(seen, c);
      } else if c in m {
        assert LookaheadsAt(seen + {y}, c) == LookaheadsAt(seen, c) + {y.lookahead};
      } else {
        assert LookaheadsAt(seen, c) == {};
        assert LookaheadsAt(seen + {y}, c) == {y.lookahead};
      }
    }
  }

  /** Some item of `state` with core `c` is on production `p`. */
  predicate Carries(state: set<Item>, c: (int, nat), p: Production)
  {
    exists y :: y in state && y.Core() == c && y.production == p
  }

  /**
   * The production a merge uses for core `c`: the production of an item with
   * that core in the first state of the group that has one.
   */
  predicate FirstCarrier(states: seq<set<Item>>, ids: seq<int>, c: (int, nat), p: Production)
    requires InRange(states, ids)
  {
    exists k :: 0 <= k < |ids| && Carries(states[ids[k]], c, p)
                && forall k' :: 0 <= k' < k ==> c !in CoreOf(states[ids[k']])
  }

  /** The production chosen for a core carries that core's production id. */
  lemma CarrierInUnion(states: seq<set<Item>>, ids: seq<int>, c: (int, nat), p: Production)
    requires InRange(states, ids) && FirstCarrier(states, ids, c, p)
    ensures Carries(Union(states, ids), c, p) && p.id == c.0
  {
    UnionMembers(states, ids);
  }

  // ---------------------------------------------------------------------------
  // Grouping by core.

  /** The dictionary `core_groups` after the first `n` states: the distinct cores and the ids of each. */
  predicate Grouped(sc: seq<set<(int, nat)>>, n: int, cores: seq<set<(int, nat)>>, groups: seq<seq<int>>)
    requires 0 <= n <= |sc|
  {
    cores == Distinct(sc[..n]) && |groups| == |cores|
    && forall g :: 0 <= g < |cores| ==> groups[g] == IndicesOf(sc[..n], cores[g])
  }

  /** A state whose core is already a key joins that key's group. */
  lemma GroupedOld(sc: seq<set<(int, nat)>>, i: int, cores: seq<set<(int, nat)>>, groups: seq<seq<int>>, j: int)
    requires 0 <= i < |sc| && Grouped(sc, i, cores, groups)
    requires 0 <= j < |cores| && cores[j] == sc[i]
    ensures Grouped(sc, i + 1, cores, groups[j := groups[j] + [i]])
  {
    assert sc[..i + 1][..i] == sc[..i];
    DistinctFacts(sc[..i]);
  }

  /** A state with a new core opens a group of its own. */
  lemma GroupedNew(sc: seq<set<(int, nat)>>, i: int, cores: seq<set<(int, nat)>>, groups: seq<seq<int>>)
    requires 0 <= i < |sc| && Grouped(sc, i, cores, groups) && sc[i] !in cores
    ensures Grouped(sc, i + 1, cores + [sc[i]], groups + [[i]])
  {
    assert sc[..i + 1][..i] == sc[..i];
    DistinctFacts(sc[..i]);
    IndicesFacts(sc[..i], sc[i]);
  }

  /**
   * The first loop of `merge`: the LR(1) ids grouped by core, the groups in
   * order of the first appearance of their core and the ids of each group
   * ascending.
   */
  method GroupByCore(states: seq<set<Item>>) returns (cores: seq<set<(int, nat)>>, groups: seq<seq<int>>)
    ensures cores == Distinct(StateCores(states)) && |groups| == |cores|
    ensures forall g :: 0 <= g < |cores| ==> groups[g] == IndicesOf(StateCores(states), cores[g])
  {
    ghost var sc := StateCores(states);
    cores, groups := [], [];
    var i := 0;
    while i < |states|
      invariant 0 <= i <= |states| && Grouped(sc, i, cores, groups)
    {
      var core := CoreOf(states[i]);
      var j := IndexOf(cores, core);
      if j >= 0 {
        GroupedOld(sc, i, cores, groups, j);
        groups := groups[j := groups[j] + [i]];
      } else {
        GroupedNew(sc, i, cores, groups);
        cores := cores + [core];
        groups := groups + [[i]];
      }
      i := i + 1;
    }
    assert sc[..i] == sc;
  }

  // ---------------------------------------------------------------------------
  // Merging one group.

  /** The loop over the items of one state: each item's lookahead joins the set of its core. */
  method AddStateLookaheads(m0: map<(int, nat), set<string>>, ghost seen: set<Item>, state: set<Item>)
    returns (m: map<(int, nat), set<string>>)
    requires ByCore(m0, seen)
    ensures ByCore(m, seen + state)
  {
    m := m0;
    var todo := state;
    while todo != {}
      invariant todo <= state && ByCore(m, seen + (state - todo))
      decreases |todo|
    {
      var item := Choose(todo);
      ByCoreAdd(m, seen + (state - todo), item);
      var c := item.Core();
      m := m[c := (if c in m then m[c] else {}) + {item.lookahead}];
      assert seen + (state - (todo - {item})) == seen + (state - todo) + {item};
      todo := todo - {item};
    }
    assert state - todo == state;
  }

  /** The `item_map` of a group: for each core, the lookaheads of its items in every state of the group. */
  method CollectLookaheads(states: seq<set<Item>>, ids: seq<int>) returns (m: map<(int, nat), set<string>>)
    requires InRange(states, ids)
    ensures ByCore(m, Union(states, ids))
  {
    m := map[];
    var k := 0;
    while k < |ids|
      invariant 0 <= k <= |ids| && ByCore(m, Union(states, ids[..k]))
    {
      UnionStep(states, ids, k);
      m := AddStateLookaheads(m, Union(states, ids[..k]), states[ids[k]]);
      k := k + 1;
    }
    assert ids[..k] == ids;
  }

  /** The search of one state for an item with core `c`, stopping at the first found. */
  method FindInState(state: set<Item>, c: (int, nat)) returns (r: Option<Production>)
    ensures r.Some? ==> Carries(state, c, r.value)
    ensures r.None? ==> c !in CoreOf(state)
  {
    r := None;
    var todo := state;
    while todo != {} && r.None?
      invariant todo <= state
      invariant r.Some? ==> Carries(state, c, r.value)
      invariant r.None? ==> forall y :: y in state - todo ==> y.Core() != c
      decreases |todo|
    {
      var item := Choose(todo);
      if item.Core() == c {
        r := Some(item.production);
      }
      todo := todo - {item};
    }
  }

  /**
   * The search for the production of core `c`: the states of the group in
   * order, and in each its items, until an item with that core is found.
   */
  method FindProduction(states: seq<set<Item>>, ids: seq<int>, c: (int, nat)) returns (r: Option<Production>)
    requires InRange(states, ids)
    ensures r.Some? ==> FirstCarrier(states, ids, c, r.value)
    ensures r.None? ==> c !in CoreOf(Union(states, ids))
  {
    r := None;
    var k := 0;
    while k < |ids| && r.None?
      invariant 0 <= k <= |ids|
      invariant r.None? ==> forall k' :: 0 <= k' < k ==> c !in CoreOf(states[ids[k']])
      invariant r.Some? ==> FirstCarrier(states, ids, c, r.value)
    {
      r := FindInState(states[ids[k]], c);
      if r.Some? {
        assert Carries(states[ids[k]], c, r.value);
      }
      k := k + 1;
    }
    if r.None? {
      UnionMembers(states, ids);
    }
  }

  /** The loop over the lookaheads of one core: an item on `p` at `dot` for each. */
  method AddItems(merged0: set<Item>, p: Production, dot: nat, las: seq<string>) returns (merged: set<Item>)
    ensures forall x :: x in merged <==> x in merged0 || (x.production == p && x.dot == dot && x.lookahead in las)
  {
    merged := merged0;
    var j := 0;
    while j < |las|
      invariant 0 <= j <= |las|
      invariant forall x :: x in merged <==> x in merged0 || (x.production == p && x.dot == dot && x.lookahead in las[..j])
    {
      merged := merged + {Item(p, dot, las[j])};
      assert las[..j + 1] == las[..j] + [las[j]];
      j := j + 1;
    }
    assert las[..j] == las;
  }

  /** `x` is an item of the merged state: its core has production `pick[core]` and carries its lookahead. */
  predicate Rebuilt(pick: map<(int, nat), Production>, u: set<Item>, x: Item)
  {
    x.Core() in pick && x.production == pick[x.Core()] && x.lookahead in LookaheadsAt(u, x.Core())
  }

  /** `pick` gives every core of the group the production a merge uses for it. */
  ghost predicate PickFor(states: seq<set<Item>>, ids: seq<int>, pick: map<(int, nat), Production>)
    requires InRange(states, ids)
  {
    pick.Keys == CoreOf(Union(states, ids)) && forall c :: c in pick ==> FirstCarrier(states, ids, c, pick[c])
  }

  /** The items of one more core keep the rebuilt state exact. */
  lemma RebuildStep(u: set<Item>, pick0: map<(int, nat), Production>, merged0: set<Item>, c: (int, nat),
                    p: Production, las: set<string>, merged: set<Item>)
    requires forall x :: x in merged0 <==> Rebuilt(pick0, u, x)
    requires c !in pick0 && p.id == c.0 && las == LookaheadsAt(u, c)
    requires forall x :: x in merged <==> x in merged0 || (x.production == p && x.dot == c.1 && x.lookahead in las)
    ensures forall x :: x in merged <==> Rebuilt(pick0[c := p], u, x)
  {
    forall x ensures x in merged <==> Rebuilt(pick0[c := p], u, x) {
      assert x in merged0 <==> Rebuilt(pick0, u, x);
    }
  }

  /**
   * `merged` is the state a merge builds from the group `ids`, with `pick`
   * the production it uses for each core.
   */
  ghost predicate MergedGroup(states: seq<set<Item>>, ids: seq<int>, pick: map<(int, nat), Production>,
                              merged: set<Item>)
  {
    InRange(states, ids) && PickFor(states, ids, pick)
    && forall x :: x in merged <==> Rebuilt(pick, Union(states, ids), x)
  }

  /** The loop state of the rebuilding loop: the cores done have their production and items. */
  ghost predicate Rebuilding(states: seq<set<Item>>, ids: seq<int>, m: map<(int, nat), set<string>>,
                             todo: set<(int, nat)>, pick: map<(int, nat), Production>, merged: set<Item>)
    requires InRange(states, ids)
  {
    var ok :=
      && todo <= m.Keys && pick.Keys == m.Keys - todo
      && (forall c :: c in pick ==> FirstCarrier(states, ids, c, pick[c]))
      && (forall x :: x in merged <==> Rebuilt(pick, Union(states, ids), x));
    ok
  }

  /**
   * The rebuilding loop of `merge` for one group: for each core of the
   * `item_map`, its production and then an item for each of its lookaheads.
   */
  method Rebuild(states: seq<set<Item>>, ids: seq<int>, m: map<(int, nat), set<string>>)
    returns (merged: set<Item>, ghost pick: map<(int, nat), Production>)
    requires InRange(states, ids) && ByCore(m, Union(states, ids))
    ensures MergedGroup(states, ids, pick, merged)
  {
    merged, pick := {}, map[];
    var todo := m.Keys;
    while todo != {}
      invariant Rebuilding(states, ids, m, todo, pick, merged)
      decreases |todo|
    {
      var c := Choose(todo);
      merged, pick := RebuildCore(states, ids, m, todo, pick, merged, c);
      todo := todo - {c};
    }
  }

  /** One pass of the rebuilding loop: the production of core `c`, then its items. */
  method RebuildCore(states: seq<set<Item>>, ids: seq<int>, m: map<(int, nat), set<string>>, ghost todo: set<(int, nat)>,
                     ghost pick0: map<(int, nat), Production>, merged0: set<Item>, c: (int, nat))
    returns (merged: set<Item>, ghost pick: map<(int, nat), Production>)
    requires InRange(states, ids) && ByCore(m, Union(states, ids))
    requires Rebuilding(states, ids, m, todo, pick0, merged0) && c in todo
    ensures Rebuilding(states, ids, m, todo - {c}, pick, merged)
  {
    var r := FindProduction(states, ids, c);
    assert r.Some?;
    var production := r.value;
    CarrierInUnion(states, ids, c, production);
    var las := ToSeq(m[c]);
    merged := AddItems(merged0, production, c.1, las);
    pick := pick0[c := production];
    RebuildStep(Union(states, ids), pick0, merged0, c, production, m[c], merged);
  }

  /** One group merged: its lookaheads collected by core, then its items rebuilt. */
  method MergeGroup(states: seq<set<Item>>, ids: seq<int>)
    returns (merged: set<Item>, ghost pick: map<(int, nat), Production>)
    requires InRange(states, ids)
    ensures MergedGroup(states, ids, pick, merged)
  {
    var itemMap := CollectLookaheads(states, ids);
    merged, pick := Rebuild(states, ids, itemMap);
  }

  /** Productions with the same id are the same production, as in a grammar whose ids are the list positions. */
  predicate SameIdSameProduction(u: set<Item>)
  {
    forall y, z :: y in u && z in u && y.production.id == z.production.id ==> y.production == z.production
  }

  lemma NumberedIds(ps: seq<Production>, u: set<Item>)
    requires Numbered(ps) && forall y :: y in u ==> y.production in ps
    ensures SameIdSameProduction(u)
  {
    forall y, z | y in u && z in u && y.production.id == z.production.id ensures y.production == z.production {
      var i :| 0 <= i < |ps| && ps[i] == y.production;
      var j :| 0 <= j < |ps| && ps[j] == z.production;
    }
  }

  /**
   * When productions are told apart by their ids, the merged state is
   * exactly the union of the states of its group: the lookaheads are merged
   * and nothing else changes.
   */
  lemma MergedIsUnion(states: seq<set<Item>>, ids: seq<int>, pick: map<(int, nat), Production>, merged: set<Item>)
    requires MergedGroup(states, ids, pick, merged)
    requires SameIdSameProduction(Union(states, ids))
    ensures merged == Union(states, ids)
  {
    var u := Union(states, ids);
    forall c | c in pick ensures Carries(u, c, pick[c]) && pick[c].id == c.0 {
      CarrierInUnion(states, ids, c, pick[c]);
    }
    forall x | x in merged ensures x in u {
      var y :| y in u && y.Core() == x.Core() && y.lookahead == x.lookahead;
      var z :| z in u && z.Core() == x.Core() && z.production == pick[x.Core()];
      assert y.production == z.production;
      assert x == y;
    }
    forall y | y in u ensures y in merged {
      var z :| z in u && z.Core() == y.Core() && z.production == pick[y.Core()];
      assert Rebuilt(pick, u, y);
    }
  }

  /** The merged state has the core of its group. */
  lemma MergedCore(states: seq<set<Item>>, ids: seq<int>, pick: map<(int, nat), Production>, merged: set<Item>)
    requires MergedGroup(states, ids, pick, merged)
    ensures CoreOf(merged) == CoreOf(Union(states, ids))
  {
    var u := Union(states, ids);
    forall c | c in CoreOf(u) ensures c in CoreOf(merged) {
      CarrierInUnion(states, ids, c, pick[c]);
      var y :| y in u && y.Core() == c;
      var x := Item(pick[c], c.1, y.lookahead);
      assert Rebuilt(pick, u, x);
    }
  }

  // ---------------------------------------------------------------------------
  // Renumbering.

  /** The groups list exactly the ids of each core. */
  lemma GroupsFacts(states: seq<set<Item>>, cores: seq<set<(int, nat)>>, groups: seq<seq<int>>)
    requires |groups| == |cores|
    requires forall g :: 0 <= g < |cores| ==> groups[g] == IndicesOf(StateCores(states), cores[g])
    ensures forall g, i :: 0 <= g < |cores| && i in groups[g] ==> 0 <= i < |states| && cores[g] == CoreOf(states[i])
    ensures forall g :: 0 <= g < |cores| ==> InRange(states, groups[g])
  {
    forall g | 0 <= g < |cores| ensures forall i :: i in groups[g] ==> 0 <= i < |states| && cores[g] == CoreOf(states[i]) {
      IndicesFacts(StateCores(states), cores[g]);
    }
    forall g | 0 <= g < |cores| ensures InRange(states, groups[g]) {
      forall k | 0 <= k < |groups[g]| ensures 0 <= groups[g][k] < |states| {
        assert groups[g][k] in groups[g];
      }
    }
  }

  /** The inner `lr1_to_lalr` loop: every id of one group maps to the group. */
  method AssignGroup(toLalr0: map<int, int>, ids: seq<int>, g: int) returns (toLalr: map<int, int>)
    ensures forall i :: i in toLalr <==> i in toLalr0 || i in ids
    ensures forall i :: i in toLalr ==> toLalr[i] == if i in ids then g else toLalr0[i]
  {
    toLalr := toLalr0;
    var j := 0;
    while j < |ids|
      invariant 0 <= j <= |ids|
      invariant forall i :: i in toLalr <==> i in toLalr0 || i in ids[..j]
      invariant forall i :: i in toLalr ==> toLalr[i] == if i in ids[..j] then g else toLalr0[i]
    {
      toLalr := toLalr[ids[j] := g];
      assert ids[..j + 1] == ids[..j] + [ids[j]];
      j := j + 1;
    }
    assert ids[..j] == ids;
  }

  /**
   * The `lr1_to_lalr` loop: every id of group g maps to g. The groups
   * partition the LR(1) ids, so each id maps to the group of its core.
   */
  method GroupIds(states: seq<set<Item>>, cores: seq<set<(int, nat)>>, groups: seq<seq<int>>)
    returns (toLalr: map<int, int>)
    requires cores == Distinct(StateCores(states)) && |groups| == |cores|
    requires forall g :: 0 <= g < |cores| ==> groups[g] == IndicesOf(StateCores(states), cores[g])
    ensures forall i :: i in toLalr <==> 0 <= i < |states|
    ensures forall i :: i in toLalr ==> 0 <= toLalr[i] < |cores| && cores[toLalr[i]] == CoreOf(states[i])
  {
    GroupsFacts(states, cores, groups);
    toLalr := map[];
    var g := 0;
    while g < |groups|
      invariant 0 <= g <= |groups|
      invariant forall i :: i in toLalr ==> 0 <= i < |states| && 0 <= toLalr[i] < g && cores[toLalr[i]] == CoreOf(states[i])
      invariant forall h, i :: 0 <= h < g && i in groups[h] ==> i in toLalr
    {
      toLalr := AssignGroup(toLalr, groups[g], g);
      g := g + 1;
    }
    ghost var sc := StateCores(states);
    DistinctFacts(sc);
    forall i | 0 <= i < |states| ensures i in toLalr {
      assert sc[i] in Distinct(sc);
      var h :| 0 <= h < |cores| && cores[h] == sc[i];
      IndicesFacts(sc, cores[h]);
    }
  }

  /** Some LR(1) transition from a state of group `k.0` on `k.1` leads into group `target`. */
  predicate Witnessed(lr1Goto: map<(int, string), int>, toLalr: map<int, int>, k: (int, string), target: int)
    requires forall e :: e in lr1Goto ==> e.0 in toLalr && lr1Goto[e] in toLalr
  {
    exists e :: e in lr1Goto && toLalr[e.0] == k.0 && e.1 == k.1 && toLalr[lr1Goto[e]] == target
  }

  /**
   * The goto loop of `merge`: each LR(1) transition `(i, X) -> j` is written
   * as `(group of i, X) -> group of j`, in the table's iteration order, a
   * later write replacing an earlier one.
   */
  method MergeGoto(lr1Goto: map<(int, string), int>, toLalr: map<int, int>) returns (lalrGoto: map<(int, string), int>)
    requires forall e :: e in lr1Goto ==> e.0 in toLalr && lr1Goto[e] in toLalr
    ensures forall e :: e in lr1Goto ==> (toLalr[e.0], e.1) in lalrGoto
    ensures forall k :: k in lalrGoto ==> Witnessed(lr1Goto, toLalr, k, lalrGoto[k])
  {
    var entries := ToSeq(lr1Goto.Keys);
    lalrGoto := map[];
    var n := 0;
    while n < |entries|
      invariant 0 <= n <= |entries|
      invariant forall j :: 0 <= j < n ==> (toLalr[entries[j].0], entries[j].1) in lalrGoto
      invariant forall k :: k in lalrGoto ==> Witnessed(lr1Goto, toLalr, k, lalrGoto[k])
    {
      var e := entries[n];
      var lalrState := toLalr[e.0];
      var lalrNext := toLalr[lr1Goto[e]];
      WitnessedWrite(lr1Goto, toLalr, lalrGoto, e);
      lalrGoto := lalrGoto[(lalrState, e.1) := lalrNext];
      n := n + 1;
    }
    forall e | e in lr1Goto ensures (toLalr[e.0], e.1) in lalrGoto {
      var j :| 0 <= j < |entries| && entries[j] == e;
    }
  }

  /** Writing the image of one more LR(1) transition keeps every entry of the merged table witnessed. */
  lemma WitnessedWrite(lr1Goto: map<(int, string), int>, toLalr: map<int, int>, lalrGoto: map<(int, string), int>,
                       e: (int, string))
    requires forall e :: e in lr1Goto ==> e.0 in toLalr && lr1Goto[e] in toLalr
    requires forall k :: k in lalrGoto ==> Witnessed(lr1Goto, toLalr, k, lalrGoto[k])
    requires e in lr1Goto
    ensures var written := lalrGoto[(toLalr[e.0], e.1) := toLalr[lr1Goto[e]]];
      forall k :: k in written ==> Witnessed(lr1Goto, toLalr, k, written[k])
  {
    assert Witnessed(lr1Goto, toLalr, (toLalr[e.0], e.1), toLalr[lr1Goto[e]]);
  }

  /** LR(1) transitions of merged states on the same symbol lead into the same merged state. */
  predicate Consistent(lr1Goto: map<(int, string), int>, toLalr: map<int, int>)
    requires forall e :: e in lr1Goto ==> e.0 in toLalr && lr1Goto[e] in toLalr
  {
    forall e1, e2 :: e1 in lr1Goto && e2 in lr1Goto && toLalr[e1.0] == toLalr[e2.0] && e1.1 == e2.1 ==>
      toLalr[lr1Goto[e1]] == toLalr[lr1Goto[e2]]
  }

  /**
   * When the merged transitions do not clash, the order of writes does not
   * matter: the merged table is exactly the image of the LR(1) table.
   */
  lemma MergeGotoExact(lr1Goto: map<(int, string), int>, toLalr: map<int, int>, lalrGoto: map<(int, string), int>)
    requires forall e :: e in lr1Goto ==> e.0 in toLalr && lr1Goto[e] in toLalr
    requires Consistent(lr1Goto, toLalr)
    requires forall e :: e in lr1Goto ==> (toLalr[e.0], e.1) in lalrGoto
    requires forall k :: k in lalrGoto ==> Witnessed(lr1Goto, toLalr, k, lalrGoto[k])
    ensures forall e :: e in lr1Goto ==> lalrGoto[(toLalr[e.0], e.1)] == toLalr[lr1Goto[e]]
    ensures forall k :: k in lalrGoto ==> exists e :: e in lr1Goto && k == (toLalr[e.0], e.1)
  {
    forall e | e in lr1Goto ensures lalrGoto[(toLalr[e.0], e.1)] == toLalr[lr1Goto[e]] {
      var k := (toLalr[e.0], e.1);
      assert Witnessed(lr1Goto, toLalr, k, lalrGoto[k]);
    }
    forall k | k in lalrGoto ensures exists e :: e in lr1Goto && k == (toLalr[e.0], e.1) {
      assert Witnessed(lr1Goto, toLalr, k, lalrGoto[k]);
    }
  }

  // ---------------------------------------------------------------------------
  // The whole merge.

  /**
   * `LALRBuilder.merge`. One merged state per distinct core, in order of the
   * core's first appearance; merged state g is built from the group of
   * LR(1) states with core g, lookaheads merged by core; every LR(1)
   * transition reappears between the groups of its ends, and every merged
   * transition comes from one. Every id in the LR(1) goto table must name a
   * state: `lr1_to_lalr` is indexed with them.
   */
  method Merge(lr1States: seq<set<Item>>, lr1Goto: map<(int, string), int>)
    returns (lalrStates: seq<set<Item>>, lalrGoto: map<(int, string), int>, toLalr: map<int, int>,
             ghost picks: seq<map<(int, nat), Production>>)
    requires forall e :: e in lr1Goto ==> 0 <= e.0 < |lr1States| && 0 <= lr1Goto[e] < |lr1States|
    ensures |lalrStates| == |Distinct(StateCores(lr1States))| == |picks|
    ensures forall g :: 0 <= g < |lalrStates| ==>
              MergedGroup(lr1States, IndicesOf(StateCores(lr1States), Distinct(StateCores(lr1States))[g]), picks[g],
                          lalrStates[g])
    ensures forall i :: i in toLalr <==> 0 <= i < |lr1States|
    ensures forall i :: i in toLalr ==>
              0 <= toLalr[i] < |lalrStates| && Distinct(StateCores(lr1States))[toLalr[i]] == CoreOf(lr1States[i])
    ensures forall e :: e in lr1Goto ==> (toLalr[e.0], e.1) in lalrGoto
    ensures forall k :: k in lalrGoto ==> Witnessed(lr1Goto, toLalr, k, lalrGoto[k])
  {
    var cores, groups := GroupByCore(lr1States);
    GroupsFacts(lr1States, cores, groups);
    lalrStates, picks := [], [];
    var g := 0;
    while g < |groups|
      invariant 0 <= g <= |groups| && |lalrStates| == g == |picks|
      invariant forall h :: 0 <= h < g ==> MergedGroup(lr1States, groups[h], picks[h], lalrStates[h])
    {
      var merged, pick := MergeGroup(lr1States, groups[g]);
      lalrStates, picks := lalrStates + [merged], picks + [pick];
      g := g + 1;
    }
    toLalr := GroupIds(lr1States, cores, groups);
    lalrGoto := MergeGoto(lr1Goto, toLalr);
  }

  /** There are never more merged states than LR(1) states. */
  lemma FewerStates(lr1States: seq<set<Item>>)
    ensures |Distinct(StateCores(lr1States))| <= |lr1States|
  {
    DistinctFacts(StateCores(lr1States));
  }

  /** The union of a group has the group's core. */
  lemma GroupCore(states: seq<set<Item>>, c: set<(int, nat)>)
    requires c in StateCores(states)
    ensures InRange(states, IndicesOf(StateCores(states), c))
    ensures CoreOf(Union(states, IndicesOf(StateCores(states), c))) == c
  {
    var sc := StateCores(states);
    var ids := IndicesOf(sc, c);
    IndicesFacts(sc, c);
    forall k | 0 <= k < |ids| ensures 0 <= ids[k] < |states| && CoreOf(states[ids[k]]) == c {
      assert ids[k] in ids;
    }
    UnionMembers(states, ids);
    var u := Union(states, ids);
    forall y | y in u ensures y.Core() in c {
      var k :| 0 <= k < |ids| && y in states[ids[k]];
    }
    forall d | d in c ensures d in CoreOf(u) {
      assert CoreOf(states[ids[0]]) == c;
      var y :| y in states[ids[0]] && y.Core() == d;
    }
  }

  /** Each merged state has the core of its group, so no two merged states share a core. */
  lemma MergedCores(lr1States: seq<set<Item>>, lalrStates: seq<set<Item>>, picks: seq<map<(int, nat), Production>>)
    requires |lalrStates| == |Distinct(StateCores(lr1States))| == |picks|
    requires forall g :: 0 <= g < |lalrStates| ==>
               MergedGroup(lr1States, IndicesOf(StateCores(lr1States), Distinct(StateCores(lr1States))[g]), picks[g],
                           lalrStates[g])
    ensures forall g :: 0 <= g < |lalrStates| ==> CoreOf(lalrStates[g]) == Distinct(StateCores(lr1States))[g]
    ensures forall g, h :: 0 <= g < h < |lalrStates| ==> CoreOf(lalrStates[g]) != CoreOf(lalrStates[h])
  {
    var cores := Distinct(StateCores(lr1States));
    DistinctFacts(StateCores(lr1States));
    forall g | 0 <= g < |lalrStates| ensures CoreOf(lalrStates[g]) == cores[g] {
      var ids := IndicesOf(StateCores(lr1States), cores[g]);
      GroupCore(lr1States, cores[g]);
      MergedCore(lr1States, ids, picks[g], lalrStates[g]);
    }
  }
}
