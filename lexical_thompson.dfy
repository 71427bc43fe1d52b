/**
 * Thompson's construction: each constructor draws fresh states from the
 * factory, combines the input fragments' transitions, demotes the input
 * fragments' accepting states (a change to the shared State records) and adds
 * the epsilon edges of the construction.
 */
module Thompson {
  import opened Wrappers
  import opened LexState
  import opened StateFactory
  import opened Nfa
  import opened FiniteSets

  /** Every state a fragment mentions was handed out by the factory. */
  ghost predicate Issued(f: StateFactory, n: Nfa)
    reads f, n
  {
    && n.states <= f.records.Keys
    && n.accepts <= f.records.Keys
    && (n.start.Some? ==> n.start.value in f.records)
  }

  /** Transitions stay inside the fragment's states and alphabet. */
  ghost predicate WellFormed(n: Nfa)
    reads n
  {
    EdgesWithin(n.states, n.transitions) && SymbolsWithin(n.alphabet, n.transitions)
  }

  // ---------------------------------------------------------------------------
  // Facts about the pure helpers used in the contracts below.

  lemma LinkAllStep(t: Transitions, done: set<int>, a: int, targets: set<int>)
    ensures LinkAll(t, done + {a}, targets)
         == LinkAll(t, done, targets)[(a, None) := Targets(LinkAll(t, done, targets), (a, None)) + targets]
  {
    var l := LinkAll(t, done + {a}, targets);
    var r := LinkAll(t, done, targets)[(a, None) := Targets(LinkAll(t, done, targets), (a, None)) + targets];
    assert l.Keys == r.Keys;
    forall k | k in l ensures l[k] == r[k] {
      assert Targets(l, k) == Targets(r, k);
    }
  }

  lemma LinkAllUnion(t: Transitions, s1: set<int>, s2: set<int>, targets: set<int>)
    ensures LinkAll(LinkAll(t, s1, targets), s2, targets) == LinkAll(t, s1 + s2, targets)
  {
    var l := LinkAll(LinkAll(t, s1, targets), s2, targets);
    var r := LinkAll(t, s1 + s2, targets);
    forall k: Key ensures (k in l <==> k in r) && (k in l ==> l[k] == r[k]) {
      LinkAllUnionAt(t, s1, s2, targets, k);
    }
    assert l.Keys == r.Keys;
  }

  /** `LinkAllUnion` at one key. */
  lemma LinkAllUnionAt(t: Transitions, s1: set<int>, s2: set<int>, targets: set<int>, k: Key)
    ensures var l, r := LinkAll(LinkAll(t, s1, targets), s2, targets), LinkAll(t, s1 + s2, targets);
      (k in l <==> k in r) && (k in l ==> l[k] == r[k])
  {
    var m := LinkAll(t, s1, targets);
    if k.1.None? {
      assert k == (k.0, None);
      LinkAllKeys(t, s1, targets);
      LinkAllKeys(m, s2, targets);
      LinkAllKeys(t, s1 + s2, targets);
    }
  }

  /** Updating a key that is no source of the linking commutes with the linking. */
  lemma LinkAllUpdate(t: Transitions, sources: set<int>, targets: set<int>, k: Key, v: set<int>)
    requires k.0 !in sources
    ensures LinkAll(t[k := v], sources, targets) == LinkAll(t, sources, targets)[k := v]
  {
    var l := LinkAll(t[k := v], sources, targets);
    var r := LinkAll(t, sources, targets)[k := v];
    assert l.Keys == r.Keys;
    forall k' | k' in l ensures l[k'] == r[k'] {
      assert Targets(l, k') == Targets(r, k');
    }
  }

  lemma DemoteStep(r: map<int, State>, done: set<int>, a: int)
    requires a in r
    ensures Demote(r, done + {a}) == Demote(r, done)[a := Demote(r, done)[a].(isAccepting := false)]
  {
  }

  lemma DemoteUnion(r: map<int, State>, s1: set<int>, s2: set<int>)
    ensures Demote(Demote(r, s1), s2) == Demote(r, s1 + s2)
  {
  }

  lemma RetagStep(r: map<int, State>, done: set<int>, a: int, t: string)
    requires a in r
    ensures Retag(r, done + {a}, t) == Retag(r, done, t)[a := Retag(r, done, t)[a].(tag := Some(t))]
  {
  }

  /** A key whose state was not handed out yet is absent from a fragment's transitions. */
  lemma FreshKeyAbsent(f: StateFactory, n: Nfa, id: int)
    requires Issued(f, n) && WellFormed(n) && id !in f.records
    ensures forall sym :: (id, sym) !in n.transitions
  {
  }

  // ---------------------------------------------------------------------------
  // Loops shared by the constructors.

  /** The targets `x` and, when present, `y`. */
  function Pair(x: int, y: Option<int>): (r: set<int>)
    ensures x in r && (y.Some? ==> y.value in r)
    ensures forall z :: z in r ==> z == x || y == Some(z)
  {
    if y.Some? then {x, y.value} else {x}
  }

  /** `nfa.add_transition(a, None, x)`, then `nfa.add_transition(a, None, y)` when `y` is given. */
  method LinkOne(nfa: Nfa, a: int, x: int, y: Option<int>)
    modifies nfa
    ensures nfa.transitions == old(nfa.transitions)[(a, None) := Targets(old(nfa.transitions), (a, None)) + Pair(x, y)]
    ensures nfa.states == old(nfa.states) + {a} + Pair(x, y)
    ensures nfa.alphabet == old(nfa.alphabet) && nfa.start == old(nfa.start) && nfa.accepts == old(nfa.accepts)
  {
    ghost var before := Targets(nfa.transitions, (a, None));
    nfa.AddTransition(a, None, x);
    if y.Some? {
      nfa.AddTransition(a, None, y.value);
      assert before + {x} + {y.value} == before + Pair(x, y);
    }
  }

  /**
   * The loop `for accept in nfa1.accept_states`: demote each accepting state
   * of an input fragment and give it epsilon edges to `x` and, when given, `y`.
   */
  method DemoteAndLink(f: StateFactory, nfa: Nfa, sources: set<int>, x: int, y: Option<int>)
    requires f.Valid() && sources <= f.records.Keys
    modifies f, nfa
    ensures f.Valid() && f.counter == old(f.counter)
    ensures f.records == Demote(old(f.records), sources)
    ensures nfa.transitions == LinkAll(old(nfa.transitions), sources, Pair(x, y))
    ensures nfa.states == old(nfa.states) + sources + (if sources == {} then {} else Pair(x, y))
    ensures nfa.alphabet == old(nfa.alphabet) && nfa.start == old(nfa.start) && nfa.accepts == old(nfa.accepts)
  {
    var todo := sources;
    ghost var done: set<int> := {};
    ghost var records0 := f.records;
    ghost var t0 := nfa.transitions;
    while todo != {}
      invariant done + todo == sources && done !! todo
      invariant f.Valid() && f.counter == old(f.counter)
      invariant f.records == Demote(records0, done)
      invariant nfa.transitions == LinkAll(t0, done, Pair(x, y))
      invariant nfa.states == old(nfa.states) + done + (if done == {} then {} else Pair(x, y))
      invariant nfa.alphabet == old(nfa.alphabet) && nfa.start == old(nfa.start) && nfa.accepts == old(nfa.accepts)
      decreases todo
    {
      var a := Choose(todo);
      DemoteStep(records0, done, a);
      LinkAllStep(t0, done, a, Pair(x, y));
      f.SetAccepting(a, false);
      LinkOne(nfa, a, x, y);
      done := done + {a};
      todo := todo - {a};
    }
  }

  /** `for state in nfa.accept_states: state.tag = tag`. */
  method TagAll(f: StateFactory, ids: set<int>, tag: string)
    requires f.Valid() && ids <= f.records.Keys
    modifies f
    ensures f.Valid() && f.counter == old(f.counter)
    ensures f.records == Retag(old(f.records), ids, tag)
  {
    var todo := ids;
    while todo != {}
      invariant todo <= ids
      invariant f.Valid() && f.counter == old(f.counter)
      invariant f.records == Retag(old(f.records), ids - todo, tag)
      decreases todo
    {
      var a := Choose(todo);
      RetagStep(old(f.records), ids - todo, a, tag);
      f.SetTag(a, tag);
      assert (ids - todo) + {a} == ids - (todo - {a});
      todo := todo - {a};
    }
  }

  /** `records` after two fresh states `s` and `s + 1`, the second one accepting. */
  function WithPair(records: map<int, State>, s: int): (r: map<int, State>)
    ensures r.Keys == records.Keys + {s, s + 1}
    ensures r[s + 1].isAccepting && r[s + 1].id == s + 1
  {
    records[s := LexState.NewState(s)][s + 1 := LexState.NewState(s + 1).(isAccepting := true)]
  }

  /** `_new_state()` twice, then `is_accepting = True` on the second state. */
  method NewPair(f: StateFactory) returns (start: int, accept: int)
    requires f.Valid()
    modifies f
    ensures f.Valid() && start == old(f.counter) && accept == start + 1 && f.counter == start + 2
    ensures start !in old(f.records) && accept !in old(f.records)
    ensures f.records == WithPair(old(f.records), start)
  {
    var s := f.NewState();
    var a := f.NewState();
    f.SetAccepting(a.id, true);
    start, accept := s.id, a.id;
  }

  // ---------------------------------------------------------------------------
  // The constructors.

  /** `construct_char`: two fresh states and one edge `start -c-> accept`. */
  method ConstructChar(f: StateFactory, c: char) returns (nfa: Nfa)
    requires f.Valid()
    modifies f
    ensures f.Valid() && fresh(nfa) && Issued(f, nfa) && WellFormed(nfa)
    ensures var s := old(f.counter);
      && f.counter == s + 2
      && nfa.start == Some(s) && nfa.accepts == {s + 1} && nfa.states == {s, s + 1}
      && nfa.alphabet == {c} && nfa.transitions == map[(s, Some(c)) := {s + 1}]
      && f.records == WithPair(old(f.records), s)
  {
    nfa := new Nfa();
    var start, accept := NewPair(f);
    nfa.start := Some(start);
    nfa.accepts := nfa.accepts + {accept};
    nfa.AddTransition(start, Some(c), accept);
    assert nfa.transitions.Keys == {(start, Some(c))};
    assert Targets(nfa.transitions, (start, Some(c))) == {accept};
  }

  /** Linking keeps the transitions inside `states` when its end points are there. */
  lemma LinkAllWithin(states: set<int>, alphabet: set<char>, t: Transitions, sources: set<int>, targets: set<int>)
    requires EdgesWithin(states, t) && SymbolsWithin(alphabet, t)
    requires sources <= states && (sources != {} ==> targets <= states)
    ensures EdgesWithin(states, LinkAll(t, sources, targets)) && SymbolsWithin(alphabet, LinkAll(t, sources, targets))
  {
  }

  /** Merging two transition maps keeps them inside the union of the fragments. */
  lemma MergeWithin(s1: set<int>, a1: set<char>, t1: Transitions, s2: set<int>, a2: set<char>, t2: Transitions)
    requires EdgesWithin(s1, t1) && SymbolsWithin(a1, t1) && EdgesWithin(s2, t2) && SymbolsWithin(a2, t2)
    ensures EdgesWithin(s1 + s2, t1 + t2) && SymbolsWithin(a1 + a2, t1 + t2)
  {
  }

  /** Widening the state set or the alphabet keeps a transition map inside them. */
  lemma WithinWiden(s1: set<int>, a1: set<char>, s2: set<int>, a2: set<char>, t: Transitions)
    requires EdgesWithin(s1, t) && SymbolsWithin(a1, t) && s1 <= s2 && a1 <= a2
    ensures EdgesWithin(s2, t) && SymbolsWithin(a2, t)
  {
  }

  /**
   * `construct_concat`: nfa1's start, nfa2's accepting states, and an epsilon
   * edge from every (now demoted) accepting state of nfa1 to nfa2's start.
   * The transition maps are merged with nfa2's entries winning on a shared key.
   */
  method ConstructConcat(f: StateFactory, n1: Nfa, n2: Nfa) returns (nfa: Nfa)
    requires f.Valid() && Issued(f, n1) && Issued(f, n2) && WellFormed(n1) && WellFormed(n2)
    requires n2.start.Some?
    modifies f
    ensures f.Valid() && fresh(nfa) && Issued(f, nfa) && WellFormed(nfa)
    ensures f.counter == old(f.counter) && f.records == Demote(old(f.records), n1.accepts)
    ensures nfa.start == n1.start && nfa.accepts == n2.accepts
    ensures nfa.alphabet == n1.alphabet + n2.alphabet
    ensures nfa.transitions == LinkAll(n1.transitions + n2.transitions, n1.accepts, {n2.start.value})
    ensures nfa.states == n1.states + n2.states + n1.accepts
                          + (if n1.accepts == {} then {} else {n2.start.value})
  {
    nfa := new Nfa();
    nfa.states := n1.states + n2.states;
    nfa.alphabet := n1.alphabet + n2.alphabet;
    nfa.transitions := n1.transitions + n2.transitions;
    nfa.start := n1.start;
    nfa.accepts := n2.accepts;
    MergeWithin(n1.states, n1.alphabet, n1.transitions, n2.states, n2.alphabet, n2.transitions);
    ghost var merged := nfa.transitions;
    ghost var states := nfa.states + n1.accepts + (if n1.accepts == {} then {} else {n2.start.value});
    WithinWiden(nfa.states, nfa.alphabet, states, nfa.alphabet, merged);
    DemoteAndLink(f, nfa, n1.accepts, n2.start.value, None);
    LinkAllWithin(states, nfa.alphabet, merged, n1.accepts, {n2.start.value});
  }

  /**
   * `construct_union`: a fresh start with epsilon edges to both starts, and a
   * fresh accepting state, the only one, reached by epsilon from every
   * (demoted) accepting state of either input.
   */
  method ConstructUnion(f: StateFactory, n1: Nfa, n2: Nfa) returns (nfa: Nfa)
    requires f.Valid() && Issued(f, n1) && Issued(f, n2) && WellFormed(n1) && WellFormed(n2)
    requires n1.start.Some? && n2.start.Some?
    modifies f
    ensures f.Valid() && fresh(nfa) && Issued(f, nfa) && WellFormed(nfa)
    ensures var s := old(f.counter);
      && f.counter == s + 2
      && nfa.start == Some(s) && nfa.accepts == {s + 1}
      && nfa.alphabet == n1.alphabet + n2.alphabet
      && nfa.transitions == LinkAll((n1.transitions + n2.transitions)[(s, None) := {n1.start.value, n2.start.value}],
                                    n1.accepts + n2.accepts, {s + 1})
      && nfa.states == n1.states + n2.states + n1.accepts + n2.accepts
                       + {s, s + 1, n1.start.value, n2.start.value}
      && f.records == Demote(WithPair(old(f.records), s), n1.accepts + n2.accepts)
  {
    var states1, alphabet1, t1, start1, accepts1 := n1.states, n1.alphabet, n1.transitions, n1.start.value, n1.accepts;
    var states2, alphabet2, t2, start2, accepts2 := n2.states, n2.alphabet, n2.transitions, n2.start.value, n2.accepts;
    ghost var s := f.counter;
    FreshKeyAbsent(f, n1, s);
    FreshKeyAbsent(f, n2, s);
    UnionWithin(f.records, states1, alphabet1, t1, accepts1, start1, states2, alphabet2, t2, accepts2, start2, s);
    var newStart, newAccept := NewPair(f);
    UnionTransitions(t1, t2, accepts1, start1, accepts2, start2, s, newAccept);
    UnionStates(states1, accepts1, start1, states2, accepts2, start2, s, newAccept);
    nfa := FanOut(states1 + states2, alphabet1 + alphabet2, t1 + t2, newStart, newAccept, start1, start2);
    assert nfa != n1 && nfa != n2;
    ghost var recordsBefore := f.records;
    DemoteAndLink(f, nfa, accepts1, newAccept, None);
    DemoteAndLink(f, nfa, accepts2, newAccept, None);
    DemoteUnion(recordsBefore, accepts1, accepts2);
  }

  /** The first half of `construct_union`: a new NFA over the merged fragments with `new_start` fanning out to both starts. */
  method FanOut(states: set<int>, alphabet: set<char>, t: Transitions, newStart: int, newAccept: int,
                start1: int, start2: int) returns (nfa: Nfa)
    ensures fresh(nfa)
    ensures nfa.states == states + {newStart, newAccept} + {newStart, start1} + {newStart, start2}
    ensures nfa.alphabet == alphabet && nfa.start == Some(newStart) && nfa.accepts == {newAccept}
    ensures nfa.transitions == AddEdge(AddEdge(t, (newStart, None), start1), (newStart, None), start2)
  {
    nfa := new Nfa.FromParts(states + {newStart, newAccept}, alphabet, t, Some(newStart), {newAccept});
    nfa.AddTransition(newStart, None, start1);
    nfa.AddTransition(newStart, None, start2);
  }

  /** The transition map `ConstructUnion` builds, in the closed form of its contract (`s` is the counter on entry). */
  lemma UnionTransitions(t1: Transitions, t2: Transitions, accepts1: set<int>, start1: int,
                         accepts2: set<int>, start2: int, s: int, newAccept: int)
    requires newAccept == s + 1 && (s, None) !in t1 && (s, None) !in t2
    ensures var fanOut := AddEdge(AddEdge(t1 + t2, (s, None), start1), (s, None), start2);
      LinkAll(LinkAll(fanOut, accepts1, Pair(newAccept, None)), accepts2, Pair(newAccept, None))
      == LinkAll((t1 + t2)[(s, None) := {start1, start2}], accepts1 + accepts2, {s + 1})
  {
    assert Pair(newAccept, None) == {s + 1};
    var merged := t1 + t2;
    assert Targets(merged, (s, None)) + {start1} + {start2} == {start1, start2};
    var fanOut := AddEdge(AddEdge(merged, (s, None), start1), (s, None), start2);
    assert fanOut == merged[(s, None) := {start1, start2}];
    LinkAllUnion(fanOut, accepts1, accepts2, {s + 1});
  }

  /** The state set `ConstructUnion` builds, in the closed form of its contract. */
  lemma UnionStates(states1: set<int>, accepts1: set<int>, start1: int,
                    states2: set<int>, accepts2: set<int>, start2: int, s: int, newAccept: int)
    requires newAccept == s + 1
    ensures states1 + states2 + {s, newAccept} + {s, start1} + {s, start2}
            + accepts1 + (if accepts1 == {} then {} else Pair(newAccept, None))
            + accepts2 + (if accepts2 == {} then {} else Pair(newAccept, None))
         == states1 + states2 + accepts1 + accepts2 + {s, s + 1, start1, start2}
    ensures {newAccept} == {s + 1}
  {
    assert Pair(newAccept, None) == {newAccept};
  }

  /** The NFA `ConstructUnion` builds stays inside its states and alphabet, and inside the factory. */
  lemma UnionWithin(records: map<int, State>, states1: set<int>, alphabet1: set<char>, t1: Transitions,
                    accepts1: set<int>, start1: int, states2: set<int>, alphabet2: set<char>, t2: Transitions,
                    accepts2: set<int>, start2: int, s: int)
    requires EdgesWithin(states1, t1) && SymbolsWithin(alphabet1, t1)
    requires EdgesWithin(states2, t2) && SymbolsWithin(alphabet2, t2)
    requires states1 <= records.Keys && accepts1 <= records.Keys && start1 in records
    requires states2 <= records.Keys && accepts2 <= records.Keys && start2 in records
    ensures var t := LinkAll((t1 + t2)[(s, None) := {start1, start2}], accepts1 + accepts2, {s + 1});
      var states := states1 + states2 + accepts1 + accepts2 + {s, s + 1, start1, start2};
      && states <= WithPair(records, s).Keys
      && EdgesWithin(states, t) && SymbolsWithin(alphabet1 + alphabet2, t)
  {
    var merged := t1 + t2;
    MergeWithin(states1, alphabet1, t1, states2, alphabet2, t2);
    var states := states1 + states2 + accepts1 + accepts2 + {s, s + 1, start1, start2};
    WithinWiden(states1 + states2, alphabet1 + alphabet2, states, alphabet1 + alphabet2, merged);
    LinkAllWithin(states, alphabet1 + alphabet2, merged[(s, None) := {start1, start2}], accepts1 + accepts2, {s + 1});
  }

  /** The transitions of `construct_star`: loop and exit edges from the old accepts, new start -> old start, and the bypass. */
  function StarTransitions(t: Transitions, accepts: set<int>, oldStart: int, newStart: int, newAccept: int): Transitions
  {
    LinkAll(t, accepts, {newAccept, oldStart})[(newStart, None) := {oldStart, newAccept}]
  }

  /** The transitions of `construct_plus`: those of `construct_star` without the bypass edge. */
  function PlusTransitions(t: Transitions, accepts: set<int>, oldStart: int, newStart: int, newAccept: int): Transitions
  {
    LinkAll(t, accepts, {newAccept, oldStart})[(newStart, None) := {oldStart}]
  }

  /**
   * The part `construct_star` and `construct_plus` share: fresh start and
   * accept; epsilon new start -> old start, and from each old accept (now
   * demoted) to the new accept and back to the old start.
   */
  method LoopAround(f: StateFactory, n1: Nfa) returns (nfa: Nfa, newAccept: int)
    requires f.Valid() && Issued(f, n1) && WellFormed(n1) && n1.start.Some?
    modifies f
    ensures f.Valid() && fresh(nfa) && Issued(f, nfa) && WellFormed(nfa)
    ensures var s := old(f.counter);
      && f.counter == s + 2 && newAccept == s + 1
      && nfa.start == Some(s) && nfa.accepts == {s + 1} && nfa.alphabet == n1.alphabet
      && nfa.transitions == PlusTransitions(n1.transitions, n1.accepts, n1.start.value, s, s + 1)
      && nfa.states == n1.states + n1.accepts + {s, s + 1, n1.start.value}
      && f.records == Demote(WithPair(old(f.records), s), n1.accepts)
  {
    var states1, alphabet1, t0, start1, accepts1 := n1.states, n1.alphabet, n1.transitions, n1.start.value, n1.accepts;
    FreshKeyAbsent(f, n1, f.counter);
    var newStart;
    newStart, newAccept := NewPair(f);
    nfa := new Nfa.FromParts(states1 + {newStart, newAccept}, alphabet1, t0, Some(newStart), {newAccept});
    assert nfa != n1;
    nfa.AddTransition(newStart, None, start1);
    LoopAroundShape(old(f.records), states1, alphabet1, t0, accepts1, start1, newStart, newAccept);
    DemoteAndLink(f, nfa, accepts1, newAccept, Some(start1));
  }

  /** The transition map and state set `LoopAround` builds, and that they stay inside the fragment. */
  lemma LoopAroundShape(records: map<int, State>, states1: set<int>, alphabet1: set<char>, t0: Transitions,
                        accepts1: set<int>, start1: int, newStart: int, newAccept: int)
    requires EdgesWithin(states1, t0) && SymbolsWithin(alphabet1, t0)
    requires states1 <= records.Keys && accepts1 <= records.Keys && start1 in records
    requires newStart !in records && newAccept == newStart + 1
    ensures var t1 := AddEdge(t0, (newStart, None), start1);
      var built := states1 + {newStart, newAccept} + {newStart, start1} + accepts1
                   + (if accepts1 == {} then {} else Pair(newAccept, Some(start1)));
      var states := states1 + accepts1 + {newStart, newAccept, start1};
      && built == states
      && states <= WithPair(records, newStart).Keys
      && LinkAll(t1, accepts1, Pair(newAccept, Some(start1)))
         == PlusTransitions(t0, accepts1, start1, newStart, newAccept)
      && EdgesWithin(states, LinkAll(t1, accepts1, Pair(newAccept, Some(start1))))
      && SymbolsWithin(alphabet1, LinkAll(t1, accepts1, Pair(newAccept, Some(start1))))
  {
    var t1 := AddEdge(t0, (newStart, None), start1);
    assert Targets(t0, (newStart, None)) + {start1} == {start1};
    assert t1 == t0[(newStart, None) := {start1}];
    assert Pair(newAccept, Some(start1)) == {newAccept, start1};
    LinkAllUpdate(t0, accepts1, {newAccept, start1}, (newStart, None), {start1});
    var states := states1 + accepts1 + {newStart, newAccept, start1};
    WithinWiden(states1, alphabet1, states, alphabet1, t0);
    LinkAllWithin(states, alphabet1, t1, accepts1, {newAccept, start1});
  }

  /** `construct_star`: the shared loop plus the bypass new start -> new accept for zero repetitions. */
  method ConstructStar(f: StateFactory, n1: Nfa) returns (nfa: Nfa)
    requires f.Valid() && Issued(f, n1) && WellFormed(n1) && n1.start.Some?
    modifies f
    ensures f.Valid() && fresh(nfa) && Issued(f, nfa) && WellFormed(nfa)
    ensures var s := old(f.counter);
      && f.counter == s + 2
      && nfa.start == Some(s) && nfa.accepts == {s + 1} && nfa.alphabet == n1.alphabet
      && nfa.transitions == StarTransitions(n1.transitions, n1.accepts, n1.start.value, s, s + 1)
      && nfa.states == n1.states + n1.accepts + {s, s + 1, n1.start.value}
      && f.records == Demote(WithPair(old(f.records), s),
                             n1.accepts)
  {
    var newAccept;
    nfa, newAccept := LoopAround(f, n1);
    nfa.AddTransition(nfa.start.value, None, newAccept);
    StarIsPlusWithBypass(n1.transitions, n1.accepts, n1.start.value, nfa.start.value, newAccept);
  }

  /** `construct_plus`: the shared loop without a bypass, so at least one repetition. */
  method ConstructPlus(f: StateFactory, n1: Nfa) returns (nfa: Nfa)
    requires f.Valid() && Issued(f, n1) && WellFormed(n1) && n1.start.Some?
    modifies f
    ensures f.Valid() && fresh(nfa) && Issued(f, nfa) && WellFormed(nfa)
    ensures var s := old(f.counter);
      && f.counter == s + 2
      && nfa.start == Some(s) && nfa.accepts == {s + 1} && nfa.alphabet == n1.alphabet
      && nfa.transitions == PlusTransitions(n1.transitions, n1.accepts, n1.start.value, s, s + 1)
      && nfa.states == n1.states + n1.accepts + {s, s + 1, n1.start.value}
      && f.records == Demote(WithPair(old(f.records), s),
                             n1.accepts)
  {
    var newAccept;
    nfa, newAccept := LoopAround(f, n1);
  }

  /** The star fragment is the plus fragment plus the bypass edge from the new start to the new accept. */
  lemma StarIsPlusWithBypass(t: Transitions, accepts: set<int>, oldStart: int, newStart: int, newAccept: int)
    ensures StarTransitions(t, accepts, oldStart, newStart, newAccept)
         == AddEdge(PlusTransitions(t, accepts, oldStart, newStart, newAccept), (newStart, None), newAccept)
  {
    assert {oldStart} + {newAccept} == {oldStart, newAccept};
  }

  // ---------------------------------------------------------------------------
  // Character sequences and ranges.

  /** `records` after `_new_state()` for every id in `lo .. hi-1`, in increasing order. */
  function Fresh(records: map<int, State>, lo: int, hi: int): (r: map<int, State>)
    decreases hi - lo
  {
    if hi <= lo then records else Fresh(records, lo, hi - 1)[hi - 1 := LexState.NewState(hi - 1)]
  }

  /** The fresh ids join the keys with default records; every earlier record is kept. */
  lemma {:induction false} FreshSpec(records: map<int, State>, lo: int, hi: int)
    requires forall id :: id in records ==> id < lo
    ensures forall id :: id in Fresh(records, lo, hi) <==> id in records || lo <= id < hi
    ensures forall id :: lo <= id < hi ==> Fresh(records, lo, hi)[id] == LexState.NewState(id)
    ensures forall id :: id in records ==> Fresh(records, lo, hi)[id] == records[id]
    decreases hi - lo
  {
    if lo < hi {
      FreshSpec(records, lo, hi - 1);
    }
  }

  /** The edges of the chain over the first `n` characters of `w`, added in order. */
  function Chain(s: int, w: string, n: nat): (r: Transitions)
    requires n <= |w|
  {
    if n == 0 then map[] else AddEdge(Chain(s, w, n - 1), (s + n - 1, Some(w[n - 1])), s + n)
  }

  /** The characters among the first `n` of `w`. */
  function Letters(w: string, n: nat): set<char>
    requires n <= |w|
  {
    if n == 0 then {} else Letters(w, n - 1) + {w[n - 1]}
  }

  /** The letters of the whole word are exactly the characters occurring in it. */
  lemma {:induction false} LettersSpec(w: string, n: nat)
    requires n <= |w|
    ensures forall c :: c in Letters(w, n) <==> c in w[..n]
  {
    if n > 0 {
      LettersSpec(w, n - 1);
      assert w[..n] == w[..n - 1] + [w[n - 1]];
    }
  }

  lemma ChainNext(s: int, w: string, n: nat)
    requires n < |w|
    ensures Chain(s, w, n + 1) == AddEdge(Chain(s, w, n), (s + n, Some(w[n])), s + n + 1)
    ensures ChainStates(s, n + 1) == ChainStates(s, n) + {s + n, s + n + 1}
    ensures Letters(w, n + 1) == Letters(w, n) + {w[n]}
  {
  }

  /** State `s + i` reads `w[i]` into `s + i + 1` and nothing else. */
  lemma {:induction false} ChainTargets(s: int, w: string, n: nat)
    requires n <= |w|
    ensures forall i :: 0 <= i < n ==> Targets(Chain(s, w, n), (s + i, Some(w[i]))) == {s + i + 1}
  {
    if n > 0 {
      var prev := Chain(s, w, n - 1);
      var key := (s + n - 1, Some(w[n - 1]));
      ChainTargets(s, w, n - 1);
      ChainKeys(s, w, n - 1);
      assert key !in prev;
      assert Chain(s, w, n) == AddEdge(prev, key, s + n);
      assert Targets(prev, key) + {s + n} == {s + n};
      forall i | 0 <= i < n ensures Targets(Chain(s, w, n), (s + i, Some(w[i]))) == {s + i + 1} {
        if i < n - 1 {
          assert (s + i, Some(w[i])) != key;
        }
      }
    }
  }


  /** The chain has no key but those: each key is a state `s + i` with `i < n`, paired with `w[i]`. */
  lemma {:induction false} ChainKeys(s: int, w: string, n: nat)
    requires n <= |w|
    ensures forall k :: k in Chain(s, w, n) ==> s <= k.0 < s + n && k.1 == Some(w[k.0 - s])
  {
    if n > 0 {
      ChainKeys(s, w, n - 1);
    }
  }

  /** The states the chain's edges touch: none for the empty word, else `s .. s + n`. */
  function ChainStates(s: int, n: nat): (r: set<int>)
  {
    if n == 0 then {} else ChainStates(s, n - 1) + {s + n - 1, s + n}
  }

  lemma {:induction false} ChainStatesSpec(s: int, n: nat)
    ensures forall id :: id in ChainStates(s, n) <==> n > 0 && s <= id <= s + n
  {
    if n > 0 {
      ChainStatesSpec(s, n - 1);
    }
  }

  /**
   * `construct_simple`: one fresh start, then for each character a fresh
   * state reached from the previous one by that character; the last state
   * is the only accepting one and carries the tag. For the empty word the
   * start itself accepts, and no `add_transition` ever puts it in `states`.
   */
  method ConstructSimple(f: StateFactory, w: string, tag: string) returns (nfa: Nfa)
    requires f.Valid()
    modifies f
    ensures f.Valid() && fresh(nfa) && Issued(f, nfa) && WellFormed(nfa)
    ensures var s := old(f.counter);
      && f.counter == s + |w| + 1
      && nfa.start == Some(s) && nfa.accepts == {s + |w|}
      && nfa.transitions == Chain(s, w, |w|)
      && nfa.states == ChainStates(s, |w|)
      && nfa.alphabet == Letters(w, |w|)
      && f.records == Fresh(old(f.records), s, s + |w| + 1)[s + |w| := LexState.NewState(s + |w|).(isAccepting := true, tag := Some(tag))]
  {
    ghost var records0 := f.records;
    ghost var s := f.counter;
    SimpleIssued(records0, s, w);
    var last;
    nfa, last := SimpleChain(f, w);
    AcceptTagged(f, last, tag);
    nfa.accepts := {last};
    SimpleWithin(f, nfa, records0, s, w, tag);
  }

  /** The fragment of `construct_simple` is issued by the factory and stays inside its states and alphabet. */
  lemma SimpleWithin(f: StateFactory, nfa: Nfa, records0: map<int, State>, s: int, w: string, tag: string)
    requires forall id :: id in records0 ==> id < s
    requires nfa.start == Some(s) && nfa.accepts == {s + |w|}
    requires nfa.transitions == Chain(s, w, |w|) && nfa.states == ChainStates(s, |w|)
    requires nfa.alphabet == Letters(w, |w|)
    requires f.records == Fresh(records0, s, s + |w| + 1)[s + |w| := LexState.NewState(s + |w|).(isAccepting := true, tag := Some(tag))]
    ensures Issued(f, nfa) && WellFormed(nfa)
  {
    SimpleIssued(records0, s, w);
    ChainWithin(s, w);
  }

  /** `construct_simple` up to the accepting state: a fresh start and the chain of fresh states after it. */
  method SimpleChain(f: StateFactory, w: string) returns (nfa: Nfa, last: int)
    requires f.Valid()
    modifies f
    ensures f.Valid() && fresh(nfa)
    ensures var s := old(f.counter);
      && last == s + |w| && f.counter == s + |w| + 1
      && nfa.start == Some(s) && nfa.accepts == {}
      && nfa.transitions == Chain(s, w, |w|)
      && nfa.states == ChainStates(s, |w|)
      && nfa.alphabet == Letters(w, |w|)
      && f.records == Fresh(old(f.records), s, s + |w| + 1)
  {
    ghost var records0 := f.records;
    ghost var s := f.counter;
    nfa := new Nfa();
    var start := f.NewState();
    assert start.id == s;
    nfa.start := Some(start.id);
    last := ChainFrom(f, nfa, w, start.id, records0);
  }

  /** `state.is_accepting = True`, then `state.tag = tag`, on a fresh state. */
  method AcceptTagged(f: StateFactory, id: int, tag: string)
    requires f.Valid() && id in f.records && f.records[id] == LexState.NewState(id)
    modifies f
    ensures f.Valid() && f.counter == old(f.counter)
    ensures f.records == old(f.records)[id := LexState.NewState(id).(isAccepting := true, tag := Some(tag))]
  {
    f.SetAccepting(id, true);
    f.SetTag(id, tag);
  }

  /** The loop of `construct_simple`: one fresh state and one edge per character, from `start` onwards. */
  method ChainFrom(f: StateFactory, nfa: Nfa, w: string, start: int, ghost records0: map<int, State>) returns (last: int)
    requires f.Valid() && f.counter == start + 1 && f.records == Fresh(records0, start, start + 1)
    requires nfa.transitions == map[] && nfa.states == {} && nfa.alphabet == {}
    modifies f, nfa
    ensures f.Valid() && last == start + |w| && f.counter == start + |w| + 1 && f.records == Fresh(records0, start, start + |w| + 1)
    ensures nfa.transitions == Chain(start, w, |w|) && nfa.states == ChainStates(start, |w|)
    ensures nfa.alphabet == Letters(w, |w|)
    ensures nfa.start == old(nfa.start) && nfa.accepts == old(nfa.accepts)
  {
    last := start;
    var i := 0;
    while i < |w|
      invariant 0 <= i <= |w| && last == start + i
      invariant ChainAt(f, nfa, w, start, i, records0)
      invariant nfa.start == old(nfa.start) && nfa.accepts == old(nfa.accepts)
    {
      last := ChainStep(f, nfa, w, start, i, records0);
      i := i + 1;
    }
  }

  /** The state of the loop of `construct_simple` after `i` characters. */
  ghost predicate ChainAt(f: StateFactory, nfa: Nfa, w: string, start: int, i: nat, records0: map<int, State>)
    reads f, nfa
  {
    && i <= |w|
    && f.Valid() && f.counter == start + i + 1 && f.records == Fresh(records0, start, start + i + 1)
    && nfa.transitions == Chain(start, w, i) && nfa.states == ChainStates(start, i)
    && nfa.alphabet == Letters(w, i)
  }

  /** One round of the loop of `construct_simple`. */
  method ChainStep(f: StateFactory, nfa: Nfa, w: string, start: int, i: nat, ghost records0: map<int, State>) returns (next: int)
    requires i < |w| && ChainAt(f, nfa, w, start, i, records0)
    modifies f, nfa
    ensures next == start + i + 1 && ChainAt(f, nfa, w, start, i + 1, records0)
    ensures nfa.start == old(nfa.start) && nfa.accepts == old(nfa.accepts)
  {
    next := ChainState(f, start, i, records0);
    ChainEdge(nfa, w, start, i, next);
  }


  /** `_new_state()` inside the loop of `construct_simple`: the next fresh id. */
  method ChainState(f: StateFactory, start: int, i: nat, ghost records0: map<int, State>) returns (next: int)
    requires f.Valid() && f.counter == start + i + 1 && f.records == Fresh(records0, start, start + i + 1)
    modifies f
    ensures next == start + i + 1
    ensures f.Valid() && f.counter == start + i + 2 && f.records == Fresh(records0, start, start + i + 2)
  {
    var s := f.NewState();
    next := s.id;
  }

  /** `nfa.add_transition(current, char, next_state)` inside the loop of `construct_simple`. */
  method ChainEdge(nfa: Nfa, w: string, start: int, i: nat, next: int)
    requires i < |w| && next == start + i + 1
    requires nfa.transitions == Chain(start, w, i) && nfa.states == ChainStates(start, i)
    requires nfa.alphabet == Letters(w, i)
    modifies nfa
    ensures nfa.transitions == Chain(start, w, i + 1) && nfa.states == ChainStates(start, i + 1)
    ensures nfa.alphabet == Letters(w, i + 1)
    ensures nfa.start == old(nfa.start) && nfa.accepts == old(nfa.accepts)
  {
    ChainNext(start, w, i);
    nfa.AddTransition(start + i, Some(w[i]), next);
  }

  /** The fresh states of `construct_simple` cover the chain's states and are still default records. */
  lemma SimpleIssued(records: map<int, State>, s: int, w: string)
    requires forall id :: id in records ==> id < s
    ensures var r := Fresh(records, s, s + |w| + 1);
      && ChainStates(s, |w|) <= r.Keys && s in r && s + |w| in r && r[s + |w|] == LexState.NewState(s + |w|)
  {
    FreshSpec(records, s, s + |w| + 1);
    ChainStatesSpec(s, |w|);
    forall id | id in ChainStates(s, |w|) ensures id in Fresh(records, s, s + |w| + 1) {
    }
  }

  /** The chain's edges stay inside the chain's states and the word's letters. */
  lemma ChainWithin(s: int, w: string)
    ensures EdgesWithin(ChainStates(s, |w|), Chain(s, w, |w|))
    ensures SymbolsWithin(Letters(w, |w|), Chain(s, w, |w|))
  {
    ChainTargets(s, w, |w|);
    ChainKeys(s, w, |w|);
    ChainStatesSpec(s, |w|);
    LettersSpec(w, |w|);
    assert w[..|w|] == w;
  }

  /** Whether a code point is a Unicode scalar value, that is, a `char`. */
  predicate IsScalar(k: int)
  {
    0 <= k < 0xD800 || 0xE000 <= k < 0x11_0000
  }

  /** The characters whose code points lie in `lo .. hi`; surrogate code points are no `char`. */
  function CharsBetween(lo: int, hi: int): (r: set<char>)
    decreases hi - lo
  {
    if hi < lo then {}
    else CharsBetween(lo, hi - 1) + if IsScalar(hi) then {hi as char} else {}
  }

  /** A character is in the range exactly when its code point is. */
  lemma {:induction false} CharsBetweenSpec(lo: int, hi: int)
    ensures forall c :: c in CharsBetween(lo, hi) <==> lo <= c as int <= hi
    decreases hi - lo
  {
    if lo <= hi {
      CharsBetweenSpec(lo, hi - 1);
    }
  }

  /** One edge `start -c-> accept` for every code point of `lo .. hi`, added in increasing order. */
  function RangeEdges(start: int, accept: int, lo: int, hi: int): (r: Transitions)
    decreases hi - lo
  {
    if hi < lo then map[]
    else if IsScalar(hi) then AddEdge(RangeEdges(start, accept, lo, hi - 1), (start, Some(hi as char)), accept)
    else RangeEdges(start, accept, lo, hi - 1)
  }

  /** The keys are `(start, c)` for exactly the characters of the range, each with the target `accept`. */
  lemma {:induction false} RangeEdgesSpec(start: int, accept: int, lo: int, hi: int)
    ensures forall k :: k in RangeEdges(start, accept, lo, hi) <==>
      k.0 == start && k.1.Some? && k.1.value in CharsBetween(lo, hi)
    ensures forall k :: k in RangeEdges(start, accept, lo, hi) ==> RangeEdges(start, accept, lo, hi)[k] == {accept}
    decreases hi - lo
  {
    if lo <= hi {
      RangeEdgesSpec(start, accept, lo, hi - 1);
      CharsBetweenSpec(lo, hi);
      CharsBetweenSpec(lo, hi - 1);
    }
  }

  /**
   * `construct_range`: two fresh states and one edge `start -c-> accept` for
   * every code point from `ord(a)` to `ord(b)` inclusive, none when `a > b`.
   */
  method ConstructRange(f: StateFactory, a: char, b: char) returns (nfa: Nfa)
    requires f.Valid()
    modifies f
    ensures f.Valid() && fresh(nfa) && Issued(f, nfa) && WellFormed(nfa)
    ensures var s := old(f.counter);
      && f.counter == s + 2
      && nfa.start == Some(s) && nfa.accepts == {s + 1}
      && nfa.alphabet == CharsBetween(a as int, b as int)
      && nfa.transitions == RangeEdges(s, s + 1, a as int, b as int)
      && nfa.states == (if CharsBetween(a as int, b as int) == {} then {} else {s, s + 1})
      && f.records == WithPair(old(f.records), s)
  {
    ghost var records0 := f.records;
    nfa := new Nfa();
    var start, accept := NewPair(f);
    nfa.start := Some(start);
    nfa.accepts := nfa.accepts + {accept};
    RangeLoop(nfa, start, accept, a as int, b as int);
    RangeWithin(f, nfa, records0, start, a as int, b as int);
  }

  /** The loop of `construct_range`: `add_transition(start, chr(code), accept)` for each code point in turn. */
  method RangeLoop(nfa: Nfa, start: int, accept: int, lo: int, hi: int)
    requires nfa.transitions == map[] && nfa.states == {} && nfa.alphabet == {}
    modifies nfa
    ensures nfa.alphabet == CharsBetween(lo, hi)
    ensures nfa.transitions == RangeEdges(start, accept, lo, hi)
    ensures nfa.states == if CharsBetween(lo, hi) == {} then {} else {start, accept}
    ensures nfa.start == old(nfa.start) && nfa.accepts == old(nfa.accepts)
  {
    var code := lo;
    while code <= hi
      invariant lo <= code <= if lo <= hi + 1 then hi + 1 else lo
      invariant nfa.start == old(nfa.start) && nfa.accepts == old(nfa.accepts)
      invariant nfa.alphabet == CharsBetween(lo, code - 1)
      invariant nfa.transitions == RangeEdges(start, accept, lo, code - 1)
      invariant nfa.states == if CharsBetween(lo, code - 1) == {} then {} else {start, accept}
    {
      if IsScalar(code) {
        nfa.AddTransition(start, Some(code as char), accept);
      }
      code := code + 1;
    }
  }

  /** The fragment of `construct_range` is issued by the factory and stays inside its states and alphabet. */
  lemma RangeWithin(f: StateFactory, nfa: Nfa, records0: map<int, State>, s: int, lo: int, hi: int)
    requires nfa.start == Some(s) && nfa.accepts == {s + 1} && f.records == WithPair(records0, s)
    requires nfa.alphabet == CharsBetween(lo, hi) && nfa.transitions == RangeEdges(s, s + 1, lo, hi)
    requires nfa.states == if CharsBetween(lo, hi) == {} then {} else {s, s + 1}
    ensures Issued(f, nfa) && WellFormed(nfa)
  {
    RangeEdgesSpec(s, s + 1, lo, hi);
  }


  // ---------------------------------------------------------------------------
  // The two fixed token shapes.

  /** The digits `0` to `9`. */
  function Digits(): set<char>
  {
    CharsBetween('0' as int, '9' as int)
  }

  /** The ASCII letters and digits, the alphabet of an identifier. */
  function LettersAndDigits(): set<char>
  {
    CharsBetween('a' as int, 'z' as int) + CharsBetween('A' as int, 'Z' as int) + Digits()
  }

  /** The state records after `construct_number`'s fragments, starting from `records` with counter `s`. */
  function NumberRecords(records: map<int, State>, s: int, tag: string): map<int, State>
  {
    Retag(Demote(Demote(WithPair(WithPair(records, s), s + 2), {s + 1}), {s + 1}), {s + 3}, tag)
  }

  /** The transitions of `construct_number`: a digit, then an epsilon edge into a starred digit. */
  function NumberTransitions(s: int): Transitions
  {
    var digit := RangeEdges(s, s + 1, '0' as int, '9' as int);
    LinkAll(digit + StarTransitions(digit, {s + 1}, s, s + 2, s + 3), {s + 1}, {s + 2})
  }

  /**
   * `construct_number`: `[0-9][0-9]*` as the concatenation of one digit
   * fragment with the star of the same fragment; every accepting state gets
   * the tag.
   */
  method ConstructNumber(f: StateFactory, tag: string) returns (nfa: Nfa)
    requires f.Valid()
    modifies f
    ensures f.Valid() && fresh(nfa) && Issued(f, nfa) && WellFormed(nfa)
    ensures var s := old(f.counter);
      && f.counter == s + 4
      && nfa.start == Some(s) && nfa.accepts == {s + 3} && nfa.alphabet == Digits()
      && nfa.transitions == NumberTransitions(s) && nfa.states == IdsFrom(s, 4)
      && f.records == NumberRecords(old(f.records), s, tag)
  {
    ghost var s, records0 := f.counter, f.records;
    var digit, digitStar := NumberParts(f);
    nfa := NumberJoin(f, digit, digitStar, tag, s, records0);
  }

  /** The state ids `s .. s + n - 1`, the ones a construction issues from counter `s`. */
  function IdsFrom(s: int, n: nat): set<int>
  {
    if n == 0 then {} else IdsFrom(s, n - 1) + {s + n - 1}
  }

  /** The states of the digit's star: the digit's two and two fresh ones. */
  lemma NumberStarStates(s: int, states: set<int>)
    requires states == {s, s + 1} + {s + 1} + {s + 2, s + 3, s}
    ensures states == {s, s + 1, s + 2, s + 3}
  {
  }

  /** The states of `construct_number`'s result: the four it issued. */
  lemma NumberStates(s: int, states: set<int>)
    requires states == {s, s + 1} + {s, s + 1, s + 2, s + 3} + {s + 1} + {s + 2}
    ensures states == IdsFrom(s, 4)
  {
    assert IdsFrom(s, 1) == {s};
    assert IdsFrom(s, 2) == {s, s + 1};
    assert IdsFrom(s, 3) == {s, s + 1, s + 2};
  }

  /** What `construct_number` holds after building its two fragments from counter `s` and `records0`. */
  ghost predicate NumberPartsHold(f: StateFactory, digit: Nfa, digitStar: Nfa, s: int, records0: map<int, State>)
    reads f, digit, digitStar
  {
    && f.Valid() && Issued(f, digit) && WellFormed(digit) && Issued(f, digitStar) && WellFormed(digitStar)
    && f.counter == s + 4
    && digit.accepts == {s + 1} && digit.alphabet == Digits() && digit.states == {s, s + 1}
    && digit.transitions == RangeEdges(s, s + 1, '0' as int, '9' as int) && digit.start == Some(s)
    && digitStar.states == {s, s + 1, s + 2, s + 3}
    && digitStar.start == Some(s + 2) && digitStar.accepts == {s + 3} && digitStar.alphabet == Digits()
    && digitStar.transitions == StarTransitions(RangeEdges(s, s + 1, '0' as int, '9' as int), {s + 1}, s, s + 2, s + 3)
    && f.records == Demote(WithPair(WithPair(records0, s), s + 2), {s + 1})
  }

  /** The two fragments `construct_number` concatenates: a digit and the star of that digit. */
  method NumberParts(f: StateFactory) returns (digit: Nfa, digitStar: Nfa)
    requires f.Valid()
    modifies f
    ensures NumberPartsHold(f, digit, digitStar, old(f.counter), old(f.records))
  {
    ghost var s, records0 := f.counter, f.records;
    digit := ConstructRange(f, '0', '9');
    digitStar := NumberStar(f, digit, s, records0);
  }

  /** The star of the digit fragment. */
  method NumberStar(f: StateFactory, digit: Nfa, ghost s: int, ghost records0: map<int, State>) returns (digitStar: Nfa)
    requires f.Valid() && f.counter == s + 2 && f.records == WithPair(records0, s)
    requires Shaped(f, digit, s, s + 1, Digits()) && digit.transitions == RangeEdges(s, s + 1, '0' as int, '9' as int)
    requires digit.states == {s, s + 1}
    modifies f
    ensures NumberPartsHold(f, digit, digitStar, s, records0)
  {
    digitStar := ConstructStar(f, digit);
    NumberStarStates(s, digitStar.states);
  }

  /** The end of `construct_number`: concatenate the two fragments and tag the accepting state. */
  method NumberJoin(f: StateFactory, digit: Nfa, digitStar: Nfa, tag: string, ghost s: int, ghost records0: map<int, State>)
    returns (nfa: Nfa)
    requires NumberPartsHold(f, digit, digitStar, s, records0)
    modifies f
    ensures f.Valid() && fresh(nfa) && Issued(f, nfa) && WellFormed(nfa)
    ensures f.counter == s + 4
    ensures nfa.start == Some(s) && nfa.accepts == {s + 3} && nfa.alphabet == Digits()
    ensures nfa.transitions == NumberTransitions(s) && nfa.states == IdsFrom(s, 4)
    ensures f.records == NumberRecords(records0, s, tag)
  {
    ghost var records1 := f.records;
    nfa := ConcatTagged(f, digit, digitStar, tag);
    NumberShape(f, nfa, digit, digitStar, s, records0, records1, tag);
    NumberStates(s, nfa.states);
  }

  /** `construct_concat`, then the tag on every accepting state of the result. */
  method ConcatTagged(f: StateFactory, n1: Nfa, n2: Nfa, tag: string) returns (nfa: Nfa)
    requires f.Valid() && Issued(f, n1) && Issued(f, n2) && WellFormed(n1) && WellFormed(n2)
    requires n2.start.Some?
    modifies f
    ensures f.Valid() && fresh(nfa) && Issued(f, nfa) && WellFormed(nfa)
    ensures f.counter == old(f.counter) && f.records == Retag(Demote(old(f.records), n1.accepts), n2.accepts, tag)
    ensures nfa.start == n1.start && nfa.accepts == n2.accepts
    ensures nfa.alphabet == n1.alphabet + n2.alphabet
    ensures nfa.transitions == LinkAll(n1.transitions + n2.transitions, n1.accepts, {n2.start.value})
    ensures nfa.states == n1.states + n2.states + n1.accepts + (if n1.accepts == {} then {} else {n2.start.value})
  {
    nfa := ConstructConcat(f, n1, n2);
    TagAll(f, nfa.accepts, tag);
  }

  /** The fields of `construct_number`'s result, in the closed form of its contract. */
  lemma NumberShape(f: StateFactory, nfa: Nfa, digit: Nfa, digitStar: Nfa, s: int,
                    records0: map<int, State>, records1: map<int, State>, tag: string)
    requires digit.accepts == {s + 1} && digit.alphabet == Digits()
    requires digit.transitions == RangeEdges(s, s + 1, '0' as int, '9' as int) && digit.start == Some(s)
    requires digitStar.start == Some(s + 2) && digitStar.accepts == {s + 3} && digitStar.alphabet == Digits()
    requires digitStar.transitions == StarTransitions(RangeEdges(s, s + 1, '0' as int, '9' as int), {s + 1}, s, s + 2, s + 3)
    requires nfa.start == digit.start && nfa.accepts == digitStar.accepts
    requires nfa.alphabet == digit.alphabet + digitStar.alphabet
    requires nfa.transitions == LinkAll(digit.transitions + digitStar.transitions, digit.accepts, {digitStar.start.value})
    requires records1 == Demote(WithPair(WithPair(records0, s), s + 2), {s + 1})
    requires f.records == Retag(Demote(records1, digit.accepts), digitStar.accepts, tag)
    ensures nfa.start == Some(s) && nfa.accepts == {s + 3} && nfa.alphabet == Digits()
    ensures nfa.transitions == NumberTransitions(s)
    ensures f.records == NumberRecords(records0, s, tag)
  {
  }

  /** The accepting state of `construct_number` is the last fresh one, accepting and tagged; the digit's accept is demoted. */
  lemma NumberAccepts(records: map<int, State>, s: int, tag: string)
    ensures var r := NumberRecords(records, s, tag);
      && IsAccepting(r, s + 3) && r[s + 3].tag == Some(tag)
      && s + 1 in r && !IsAccepting(r, s + 1)
  {
    var r0 := Demote(Demote(WithPair(WithPair(records, s), s + 2), {s + 1}), {s + 1});
    DemoteSpec(WithPair(WithPair(records, s), s + 2), {s + 1});
    DemoteSpec(Demote(WithPair(WithPair(records, s), s + 2), {s + 1}), {s + 1});
    RetagSpec(r0, {s + 3}, tag);
  }

  // The intermediate fragments of `construct_identifier`, from counter `s`:
  // [a-z] s..s+1, [A-Z] s+2..s+3, letter s+4..s+5, [0-9] s+6..s+7,
  // letter-or-digit s+8..s+9, its star s+10..s+11.

  function LetterRecords(records: map<int, State>, s: int): map<int, State>
  {
    Demote(WithPair(WithPair(WithPair(records, s), s + 2), s + 4), {s + 1, s + 3})
  }

  function LetterOrDigitRecords(records: map<int, State>, s: int): map<int, State>
  {
    Demote(WithPair(WithPair(LetterRecords(records, s), s + 6), s + 8), {s + 5, s + 7})
  }

  function SuffixRecords(records: map<int, State>, s: int): map<int, State>
  {
    Demote(WithPair(LetterOrDigitRecords(records, s), s + 10), {s + 9})
  }

  /** The state records after `construct_identifier`, starting from `records` with counter `s`. */
  function IdentifierRecords(records: map<int, State>, s: int, tag: string): map<int, State>
  {
    Retag(Demote(SuffixRecords(records, s), {s + 5}), {s + 11}, tag)
  }

  function LetterAlphabet(): set<char>
  {
    CharsBetween('a' as int, 'z' as int) + CharsBetween('A' as int, 'Z' as int)
  }

  function LetterTransitions(s: int): Transitions
  {
    var lower := RangeEdges(s, s + 1, 'a' as int, 'z' as int);
    var upper := RangeEdges(s + 2, s + 3, 'A' as int, 'Z' as int);
    LinkAll((lower + upper)[(s + 4, None) := {s, s + 2}], {s + 1, s + 3}, {s + 5})
  }

  function LetterOrDigitTransitions(s: int): Transitions
  {
    var digit := RangeEdges(s + 6, s + 7, '0' as int, '9' as int);
    LinkAll((LetterTransitions(s) + digit)[(s + 8, None) := {s + 4, s + 6}], {s + 5, s + 7}, {s + 9})
  }

  /** The transitions of `construct_identifier`: the letter, then an epsilon edge into the starred letter-or-digit union. */
  function IdentifierTransitions(s: int): Transitions
  {
    var suffix := StarTransitions(LetterOrDigitTransitions(s), {s + 9}, s + 8, s + 10, s + 11);
    LinkAll(LetterTransitions(s) + suffix, {s + 5}, {s + 10})
  }

  /**
   * `construct_identifier`: `[a-zA-Z][a-zA-Z0-9]*` from three ranges, two
   * unions and a star, with the letter fragment reused as the head of the
   * concatenation; every accepting state gets the tag.
   */
  method ConstructIdentifier(f: StateFactory, tag: string) returns (nfa: Nfa)
    requires f.Valid()
    modifies f
    ensures f.Valid() && fresh(nfa) && Issued(f, nfa) && WellFormed(nfa)
    ensures var s := old(f.counter);
      && f.counter == s + 12
      && nfa.start == Some(s + 4) && nfa.accepts == {s + 11} && nfa.alphabet == LettersAndDigits()
      && nfa.transitions == IdentifierTransitions(s) && nfa.states == IdsFrom(s, 12)
      && f.records == IdentifierRecords(old(f.records), s, tag)
  {
    ghost var s, records0 := f.counter, f.records;
    var letter := LetterPart(f);
    ghost var tLetter, aLetter, records1 := letter.transitions, letter.alphabet, f.records;
    nfa := IdentifierRest(f, letter, tag, s, tLetter, aLetter);
    IdentifierAlphabet();
    IdentifierTransitionsShape(s, tLetter);
    IdentifierRecordsShape(s, tag, records0, records1);
  }

  /** The rest of `construct_identifier` once the letter fragment is built: digit, union, star, concatenation, tags. */
  method IdentifierRest(f: StateFactory, letter: Nfa, tag: string, ghost s: int, ghost tLetter: Transitions, ghost aLetter: set<char>)
    returns (nfa: Nfa)
    requires LetterKept(f, letter, s, tLetter, aLetter) && f.counter == s + 6
    modifies f
    ensures f.Valid() && fresh(nfa) && Issued(f, nfa) && WellFormed(nfa) && nfa.states == IdsFrom(s, 12)
    ensures f.counter == s + 12 && f.records == RestRecords(old(f.records), s, tag)
    ensures nfa.start == Some(s + 4) && nfa.accepts == {s + 11} && nfa.alphabet == aLetter + (aLetter + Digits())
    ensures nfa.transitions == LinkAll(tLetter + StarTransitions(LetterOrDigitFrom(tLetter, s), {s + 9}, s + 8, s + 10, s + 11),
                                       {s + 5}, {s + 10})
  {
    var letterOrDigit := LetterOrDigitPart(f, letter, s, tLetter, aLetter);
    nfa := SuffixJoin(f, letter, letterOrDigit, tag, s, tLetter, aLetter, LetterOrDigitFrom(tLetter, s));
  }

  /** `[a-zA-Z0-9]`: a digit range, then its union with the letter. */
  method LetterOrDigitPart(f: StateFactory, letter: Nfa, ghost s: int, ghost tLetter: Transitions, ghost aLetter: set<char>)
    returns (lod: Nfa)
    requires LetterKept(f, letter, s, tLetter, aLetter) && f.counter == s + 6
    modifies f
    ensures LetterKept(f, letter, s, tLetter, aLetter)
    ensures f.counter == s + 10 && f.records == Demote(WithPair(WithPair(old(f.records), s + 6), s + 8), {s + 5, s + 7})
    ensures Shaped(f, lod, s + 8, s + 9, aLetter + Digits()) && lod.transitions == LetterOrDigitFrom(tLetter, s)
    ensures lod.states == IdsFrom(s, 10)
  {
    var digit := DigitRange(f, letter, s, tLetter, aLetter);
    lod := DigitUnion(f, letter, digit, s, tLetter, aLetter);
  }

  /** `[a-zA-Z0-9]*`, then the concatenation with the letter and the tags. */
  method SuffixJoin(f: StateFactory, letter: Nfa, lod: Nfa, tag: string, ghost s: int, ghost tLetter: Transitions, ghost aLetter: set<char>,
                    ghost tLod: Transitions)
    returns (nfa: Nfa)
    requires LetterKept(f, letter, s, tLetter, aLetter) && f.counter == s + 10
    requires Shaped(f, lod, s + 8, s + 9, aLetter + Digits()) && lod.states == IdsFrom(s, 10) && lod.transitions == tLod
    modifies f
    ensures f.Valid() && fresh(nfa) && Issued(f, nfa) && WellFormed(nfa) && nfa.states == IdsFrom(s, 12)
    ensures f.counter == s + 12 && f.records == Retag(Demote(Demote(WithPair(old(f.records), s + 10), {s + 9}), {s + 5}), {s + 11}, tag)
    ensures nfa.start == Some(s + 4) && nfa.accepts == {s + 11} && nfa.alphabet == aLetter + (aLetter + Digits())
    ensures nfa.transitions == LinkAll(tLetter + StarTransitions(tLod, {s + 9}, s + 8, s + 10, s + 11), {s + 5}, {s + 10})
  {
    var suffix := SuffixStar(f, letter, lod, s, tLetter, aLetter, tLod);
    nfa := IdentifierJoin(f, letter, suffix, tag, s, tLetter, aLetter, tLod);
  }

  /** The letter-or-digit union over a letter fragment with transitions `tLetter`. */
  function LetterOrDigitFrom(tLetter: Transitions, s: int): Transitions
  {
    LinkAll((tLetter + RangeEdges(s + 6, s + 7, '0' as int, '9' as int))[(s + 8, None) := {s + 4, s + 6}], {s + 5, s + 7}, {s + 9})
  }

  /** The records after the rest of `construct_identifier`, from the records after the letter. */
  function RestRecords(records: map<int, State>, s: int, tag: string): map<int, State>
  {
    var lod := Demote(WithPair(WithPair(records, s + 6), s + 8), {s + 5, s + 7});
    Retag(Demote(Demote(WithPair(lod, s + 10), {s + 9}), {s + 5}), {s + 11}, tag)
  }

  /** The identifier's alphabet is the letters and digits. */
  lemma IdentifierAlphabet()
    ensures LetterAlphabet() + (LetterAlphabet() + Digits()) == LettersAndDigits()
  {
  }

  lemma IdentifierTransitionsShape(s: int, tLetter: Transitions)
    requires tLetter == LetterTransitions(s)
    ensures LinkAll(tLetter + StarTransitions(LetterOrDigitFrom(tLetter, s), {s + 9}, s + 8, s + 10, s + 11), {s + 5}, {s + 10})
         == IdentifierTransitions(s)
  {
  }

  lemma IdentifierRecordsShape(s: int, tag: string, records0: map<int, State>, records1: map<int, State>)
    requires records1 == LetterRecords(records0, s)
    ensures RestRecords(records1, s, tag) == IdentifierRecords(records0, s, tag)
  {
  }

  /** `[a-zA-Z]`: the union of the ranges `[a-z]` and `[A-Z]`. */
  method LetterPart(f: StateFactory) returns (letter: Nfa)
    requires f.Valid()
    modifies f
    ensures var s := old(f.counter);
      && LetterKept(f, letter, s, LetterTransitions(s), LetterAlphabet())
      && f.counter == s + 6 && f.records == LetterRecords(old(f.records), s)
  {
    ghost var s, records0 := f.counter, f.records;
    var lower, upper := LetterRanges(f);
    letter := LetterUnion(f, lower, upper, s, records0);
  }

  /** The state of `construct_identifier` once `[a-z]` and `[A-Z]` are built. */
  ghost predicate RangesHold(f: StateFactory, lower: Nfa, upper: Nfa, s: int, records0: map<int, State>)
    reads f, lower, upper
  {
    && f.Valid() && f.counter == s + 4 && f.records == WithPair(WithPair(records0, s), s + 2)
    && Shaped(f, lower, s, s + 1, CharsBetween('a' as int, 'z' as int))
    && lower.transitions == RangeEdges(s, s + 1, 'a' as int, 'z' as int)
    && Shaped(f, upper, s + 2, s + 3, CharsBetween('A' as int, 'Z' as int))
    && upper.transitions == RangeEdges(s + 2, s + 3, 'A' as int, 'Z' as int)
    && lower.states == {s, s + 1} && upper.states == {s + 2, s + 3}
  }

  /** The ranges `[a-z]` and `[A-Z]`. */
  method LetterRanges(f: StateFactory) returns (lower: Nfa, upper: Nfa)
    requires f.Valid()
    modifies f
    ensures RangesHold(f, lower, upper, old(f.counter), old(f.records))
  {
    lower := ConstructRange(f, 'a', 'z');
    upper := ConstructRange(f, 'A', 'Z');
  }

  /** `[a-zA-Z]` from the two ranges. */
  method LetterUnion(f: StateFactory, lower: Nfa, upper: Nfa, ghost s: int, ghost records0: map<int, State>) returns (letter: Nfa)
    requires RangesHold(f, lower, upper, s, records0)
    modifies f
    ensures LetterKept(f, letter, s, LetterTransitions(s), LetterAlphabet())
    ensures f.counter == s + 6 && f.records == LetterRecords(records0, s)
  {
    ghost var tLower, tUpper := lower.transitions, upper.transitions;
    ghost var sLower, sUpper := lower.states, upper.states;
    letter := ConstructUnion(f, lower, upper);
    LetterShape(s, tLower, tUpper, letter.transitions);
    LetterStates(s, sLower, sUpper, letter.states);
  }

  /** A fragment that is issued by `f` and well formed, with the given start, accepting state and alphabet. */
  ghost predicate Shaped(f: StateFactory, n: Nfa, start: int, accept: int, alphabet: set<char>)
    reads f, n
  {
    Issued(f, n) && WellFormed(n) && n.start == Some(start) && n.accepts == {accept} && n.alphabet == alphabet
  }

  /** The letter fragment of `construct_identifier`, unchanged while the later fragments are built. */
  ghost predicate LetterKept(f: StateFactory, letter: Nfa, s: int, tLetter: Transitions, aLetter: set<char>)
    reads f, letter
  {
    f.Valid() && Shaped(f, letter, s + 4, s + 5, aLetter) && letter.transitions == tLetter
    && letter.states == IdsFrom(s, 6)
  }

  /** The union of the two letter ranges, in the closed form of `LetterTransitions`. */
  lemma LetterShape(s: int, tLower: Transitions, tUpper: Transitions, t: Transitions)
    requires tLower == RangeEdges(s, s + 1, 'a' as int, 'z' as int)
    requires tUpper == RangeEdges(s + 2, s + 3, 'A' as int, 'Z' as int)
    requires t == LinkAll((tLower + tUpper)[(s + 4, None) := {s, s + 2}], {s + 1} + {s + 3}, {s + 5})
    ensures t == LetterTransitions(s)
    ensures {s + 1} + {s + 3} == {s + 1, s + 3}
  {
    assert {s + 1} + {s + 3} == {s + 1, s + 3};
  }

  /** The union of the letter and the digit, in the closed form of `LetterOrDigitFrom`. */
  lemma LetterOrDigitShape(s: int, tLetter: Transitions, tDigit: Transitions, t: Transitions)
    requires tDigit == RangeEdges(s + 6, s + 7, '0' as int, '9' as int)
    requires t == LinkAll((tLetter + tDigit)[(s + 8, None) := {s + 4, s + 6}], {s + 5} + {s + 7}, {s + 9})
    ensures t == LetterOrDigitFrom(tLetter, s)
    ensures {s + 5} + {s + 7} == {s + 5, s + 7}
  {
    assert {s + 5} + {s + 7} == {s + 5, s + 7};
  }

  /** The states of `[a-zA-Z]`: both ranges' and two fresh ones. */
  lemma LetterStates(s: int, sLower: set<int>, sUpper: set<int>, states: set<int>)
    requires sLower == {s, s + 1} && sUpper == {s + 2, s + 3}
    requires states == sLower + sUpper + {s + 1} + {s + 3} + {s + 4, s + 5, s, s + 2}
    ensures states == IdsFrom(s, 6)
  {
    IdsFromStep(s, 6);
    assert forall id :: id in states <==> s <= id < s + 6;
  }

  /** The states of `[a-zA-Z0-9]`: the letter's, the digit's and two fresh ones. */
  lemma LetterOrDigitStates(s: int, sLetter: set<int>, sDigit: set<int>, states: set<int>)
    requires sLetter == IdsFrom(s, 6) && sDigit == {s + 6, s + 7}
    requires states == sLetter + sDigit + {s + 5} + {s + 7} + {s + 8, s + 9, s + 4, s + 6}
    ensures states == IdsFrom(s, 10)
  {
    IdsFromStep(s, 6);
    IdsFromStep(s, 10);
    assert forall id :: id in states <==> s <= id < s + 10;
  }

  /** The states of `[a-zA-Z0-9]*`: the union's and two fresh ones. */
  lemma SuffixStates(s: int, sLod: set<int>, states: set<int>)
    requires sLod == IdsFrom(s, 10)
    requires states == sLod + {s + 9} + {s + 10, s + 11, s + 8}
    ensures states == IdsFrom(s, 12)
  {
    assert IdsFrom(s, 12) == IdsFrom(s, 10) + {s + 10} + {s + 11};
  }

  /** The states of the identifier: the letter's are among the suffix's, which are all twelve. */
  lemma JoinStates(s: int, sLetter: set<int>, sSuffix: set<int>, states: set<int>)
    requires sLetter == IdsFrom(s, 6) && sSuffix == IdsFrom(s, 12)
    requires states == sLetter + sSuffix + {s + 5} + {s + 10}
    ensures states == IdsFrom(s, 12)
  {
    IdsFromStep(s, 6);
    IdsFromStep(s, 12);
    assert forall id :: id in states <==> s <= id < s + 12;
  }

  /** Membership in `IdsFrom`: exactly the ids from `s` below `s + n`. */
  lemma {:induction false} IdsFromStep(s: int, n: nat)
    ensures forall id :: id in IdsFrom(s, n) <==> s <= id < s + n
  {
    if n > 0 {
      IdsFromStep(s, n - 1);
    }
  }

  /** `[0-9]`, built after the letter. */
  method DigitRange(f: StateFactory, letter: Nfa, ghost s: int, ghost tLetter: Transitions, ghost aLetter: set<char>)
    returns (digit: Nfa)
    requires LetterKept(f, letter, s, tLetter, aLetter) && f.counter == s + 6
    modifies f
    ensures LetterKept(f, letter, s, tLetter, aLetter)
    ensures f.counter == s + 8 && f.records == WithPair(old(f.records), s + 6)
    ensures Shaped(f, digit, s + 6, s + 7, Digits()) && digit.transitions == RangeEdges(s + 6, s + 7, '0' as int, '9' as int)
    ensures digit.states == {s + 6, s + 7}
  {
    digit := ConstructRange(f, '0', '9');
  }

  /** `[a-zA-Z0-9]`: the union of the letter and the digit. */
  method DigitUnion(f: StateFactory, letter: Nfa, digit: Nfa, ghost s: int, ghost tLetter: Transitions, ghost aLetter: set<char>)
    returns (lod: Nfa)
    requires LetterKept(f, letter, s, tLetter, aLetter) && f.counter == s + 8
    requires Shaped(f, digit, s + 6, s + 7, Digits()) && digit.transitions == RangeEdges(s + 6, s + 7, '0' as int, '9' as int)
    requires digit.states == {s + 6, s + 7}
    modifies f
    ensures LetterKept(f, letter, s, tLetter, aLetter)
    ensures f.counter == s + 10 && f.records == Demote(WithPair(old(f.records), s + 8), {s + 5, s + 7})
    ensures Shaped(f, lod, s + 8, s + 9, aLetter + Digits())
    ensures lod.transitions == LetterOrDigitFrom(tLetter, s) && lod.states == IdsFrom(s, 10)
  {
    ghost var tDigit := digit.transitions;
    ghost var sLetter, sDigit := letter.states, digit.states;
    lod := ConstructUnion(f, letter, digit);
    LetterOrDigitShape(s, tLetter, tDigit, lod.transitions);
    LetterOrDigitStates(s, sLetter, sDigit, lod.states);
  }

  /** `[a-zA-Z0-9]*`: the star of the letter-or-digit union. */
  method SuffixStar(f: StateFactory, letter: Nfa, lod: Nfa, ghost s: int, ghost tLetter: Transitions, ghost aLetter: set<char>,
                    ghost tLod: Transitions)
    returns (suffix: Nfa)
    requires LetterKept(f, letter, s, tLetter, aLetter) && f.counter == s + 10
    requires Shaped(f, lod, s + 8, s + 9, aLetter + Digits()) && lod.transitions == tLod
    requires lod.states == IdsFrom(s, 10)
    modifies f
    ensures SuffixHolds(f, letter, suffix, s, tLetter, aLetter, tLod)
    ensures f.records == Demote(WithPair(old(f.records), s + 10), {s + 9})
  {
    ghost var sLod := lod.states;
    suffix := ConstructStar(f, lod);
    SuffixStates(s, sLod, suffix.states);
  }

  /** The state of `construct_identifier` once `[a-zA-Z0-9]*` is built from a union with transitions `tLod`. */
  ghost predicate SuffixHolds(f: StateFactory, letter: Nfa, suffix: Nfa, s: int, tLetter: Transitions, aLetter: set<char>,
                              tLod: Transitions)
    reads f, letter, suffix
  {
    && LetterKept(f, letter, s, tLetter, aLetter) && f.counter == s + 12
    && Shaped(f, suffix, s + 10, s + 11, aLetter + Digits())
    && suffix.transitions == StarTransitions(tLod, {s + 9}, s + 8, s + 10, s + 11)
    && suffix.states == IdsFrom(s, 12)
  }

  /** The end of `construct_identifier`: concatenate letter and suffix and tag the accepting state. */
  method IdentifierJoin(f: StateFactory, letter: Nfa, suffix: Nfa, tag: string, ghost s: int,
                        ghost tLetter: Transitions, ghost aLetter: set<char>, ghost tLod: Transitions)
    returns (nfa: Nfa)
    requires SuffixHolds(f, letter, suffix, s, tLetter, aLetter, tLod)
    modifies f
    ensures f.Valid() && fresh(nfa) && Issued(f, nfa) && WellFormed(nfa) && nfa.states == IdsFrom(s, 12)
    ensures f.counter == s + 12 && f.records == Retag(Demote(old(f.records), {s + 5}), {s + 11}, tag)
    ensures nfa.start == Some(s + 4) && nfa.accepts == {s + 11} && nfa.alphabet == aLetter + (aLetter + Digits())
    ensures nfa.transitions == LinkAll(tLetter + StarTransitions(tLod, {s + 9}, s + 8, s + 10, s + 11), {s + 5}, {s + 10})
  {
    ghost var sLetter, sSuffix := letter.states, suffix.states;
    nfa := ConcatTagged(f, letter, suffix, tag);
    JoinStates(s, sLetter, sSuffix, nfa.states);
  }
}
