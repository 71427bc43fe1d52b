/**
 * The NFA record. Transitions map a (state, symbol) pair to a set of target
 * states, where the symbol `None` is an epsilon move. The Python field is a
 * `defaultdict(set)`, so a key that was never written reads as the empty set;
 * `Targets` is that lookup.
 */
module Nfa {
  import opened Wrappers

  type Key = (int, Option<char>)
  type Transitions = map<Key, set<int>>

  /** `transitions[key]` with the default-dict behaviour: a missing key reads as no targets. */
  function Targets(t: Transitions, key: Key): set<int>
  {
    if key in t then t[key] else {}
  }

  /** The transition map after one more target for `key`. */
  function AddEdge(t: Transitions, key: Key, target: int): (r: Transitions)
    ensures r.Keys == t.Keys + {key}
  {
    t[key := Targets(t, key) + {target}]
  }

  /** One more edge: `target` joins the targets of `key`, and every other key reads as before. */
  lemma AddEdgeTargets(t: Transitions, key: Key, target: int)
    ensures Targets(AddEdge(t, key, target), key) == Targets(t, key) + {target}
    ensures forall k: Key :: k != key ==> Targets(AddEdge(t, key, target), k) == Targets(t, k)
  {
  }

  /**
   * The transition map after an epsilon edge from every state of `sources` to
   * every state of `targets` (the loops of the Thompson constructors).
   */
  function LinkAll(t: Transitions, sources: set<int>, targets: set<int>): Transitions
  {
    map k | k in t.Keys + (set s | s in sources :: (s, None)) ::
      if k.1.None? && k.0 in sources then Targets(t, k) + targets else t[k]
  }

  /** The keys after linking: the old keys and an epsilon key for every source. */
  lemma LinkAllKeys(t: Transitions, sources: set<int>, targets: set<int>)
    ensures LinkAll(t, sources, targets).Keys == t.Keys + set s | s in sources :: (s, None)
  {
  }

  /** Each source gains an epsilon edge to every target; every other key reads as before. */
  lemma LinkAllTargets(t: Transitions, sources: set<int>, targets: set<int>)
    ensures forall s :: s in sources ==> Targets(LinkAll(t, sources, targets), (s, None)) == Targets(t, (s, None)) + targets
    ensures forall k: Key :: !(k.1.None? && k.0 in sources) ==> Targets(LinkAll(t, sources, targets), k) == Targets(t, k)
  {
  }

  /** Every source and target of a transition is one of `states`. */
  ghost predicate EdgesWithin(states: set<int>, t: Transitions)
  {
    forall k :: k in t ==> k.0 in states && t[k] <= states
  }

  /** Every non-epsilon symbol on a transition is in the alphabet. */
  ghost predicate SymbolsWithin(alphabet: set<char>, t: Transitions)
  {
    forall k :: k in t && k.1.Some? ==> k.1.value in alphabet
  }

  class Nfa {
    var states: set<int>
    var alphabet: set<char>
    var transitions: Transitions
    var start: Option<int>
    var accepts: set<int>

    /** `NFA()`: every collection empty and no start state. */
    constructor ()
      ensures states == {} && alphabet == {} && transitions == map[]
      ensures start.None? && accepts == {}
    {
      states, alphabet, transitions := {}, {}, map[];
      start, accepts := None, {};
    }

    /**
     * `NFA(...)` from given fields. `__post_init__` turns a plain dict into a
     * default dict; since every read goes through `Targets`, a missing key
     * reads as the empty set either way.
     */
    constructor FromParts(states: set<int>, alphabet: set<char>, transitions: Transitions,
                          start: Option<int>, accepts: set<int>)
      ensures this.states == states && this.alphabet == alphabet
      ensures this.transitions == transitions && this.start == start && this.accepts == accepts
    {
      this.states, this.alphabet, this.transitions := states, alphabet, transitions;
      this.start, this.accepts := start, accepts;
    }

    /**
     * `add_transition`: `to` joins the targets of `(from, symbol)`, both end
     * points join `states`, and `symbol` joins the alphabet unless it is epsilon.
     */
    method AddTransition(from: int, symbol: Option<char>, to: int)
      modifies this
      ensures transitions == AddEdge(old(transitions), (from, symbol), to)
      ensures states == old(states) + {from, to}
      ensures alphabet == if symbol.Some? then old(alphabet) + {symbol.value} else old(alphabet)
      ensures start == old(start) && accepts == old(accepts)
    {
      var key := (from, symbol);
      if key !in transitions {
        transitions := transitions[key := {}];
      }
      transitions := transitions[key := transitions[key] + {to}];
      states := states + {from, to};
      if symbol.Some? {
        alphabet := alphabet + {symbol.value};
      }
    }
  }

  /** `add_transition` keeps the transitions inside `states` and their symbols inside the alphabet. */
  lemma AddEdgeKeepsWellFormed(states: set<int>, alphabet: set<char>, t: Transitions,
                               from: int, symbol: Option<char>, to: int)
    requires EdgesWithin(states, t) && SymbolsWithin(alphabet, t)
    ensures EdgesWithin(states + {from, to}, AddEdge(t, (from, symbol), to))
    ensures SymbolsWithin(if symbol.Some? then alphabet + {symbol.value} else alphabet,
                          AddEdge(t, (from, symbol), to))
  {
  }
}
