/**
 * The DFA record: integer states, a character alphabet, at most one target
 * per (state, symbol) key, a start state that defaults to 0 and a set of
 * accepting states. `get_transition_table` regroups the flat transition map
 * by source state.
 */
module Dfa {
  import opened Wrappers
  import opened FiniteSets

  type Moves = map<(int, char), int>
  type Table = map<int, map<char, int>>

  /** The source states that have at least one outgoing transition. */
  function Sources(t: Moves): set<int>
  {
    set k | k in t :: k.0
  }

  /** The symbols on which `s` has a transition. */
  function SymbolsFrom(t: Moves, s: int): set<char>
  {
    set k | k in t && k.0 == s :: k.1
  }

  /** The nested table `{state: {symbol: next_state}}` that `get_transition_table` builds from `t`. */
  function TableOf(t: Moves): Table
  {
    map s | s in Sources(t) :: map c | c in SymbolsFrom(t, s) :: t[(s, c)]
  }

  /** The flat transition map read back from a nested table. */
  function Flatten(table: Table): Moves
  {
    map k | k in (set s, c | s in table && c in table[s] :: (s, c)) :: table[k.0][k.1]
  }

  /** `t` restricted to the keys in `keys`. */
  function Restrict(t: Moves, keys: set<(int, char)>): Moves
  {
    map k | k in t && k in keys :: t[k]
  }

  /** Every transition appears in the table under its source and symbol, with its target. */
  lemma TableHasEveryMove(t: Moves)
    ensures forall s, c :: (s, c) in t ==> s in TableOf(t) && c in TableOf(t)[s] && TableOf(t)[s][c] == t[(s, c)]
  {
    forall s, c | (s, c) in t
      ensures s in TableOf(t) && c in TableOf(t)[s] && TableOf(t)[s][c] == t[(s, c)]
    {
      assert s in Sources(t);
      assert c in SymbolsFrom(t, s);
    }
  }

  /** The table has an outer key `s` exactly when `s` has an outgoing transition. */
  lemma TableKeys(t: Moves)
    ensures forall s :: s in TableOf(t) <==> exists c :: (s, c) in t
  {
    forall s ensures s in TableOf(t) <==> exists c :: (s, c) in t {
      if s in TableOf(t) {
        var k :| k in t && k.0 == s;
        assert (s, k.1) in t;
      }
      if c :| (s, c) in t {
        assert (s, c).0 in Sources(t);
      }
    }
  }

  /** Flattening the table gives back the transition map: nothing lost and nothing added. */
  lemma FlattenTable(t: Moves)
    ensures Flatten(TableOf(t)) == t
  {
    var table := TableOf(t);
    var keys := set s, c | s in table && c in table[s] :: (s, c);
    forall k | k in t ensures k in keys {
      assert k.0 in Sources(t);
      assert k.1 in SymbolsFrom(t, k.0);
    }
    forall k | k in keys ensures k in t {
      var s, c :| s in table && c in table[s] && k == (s, c);
      var k' :| k' in t && k'.0 == s && k'.1 == c;
    }
    assert keys == t.Keys;
  }

  /** `table[s][c] = v`, creating the row of `s` when it is missing. */
  function WithEntry(table: Table, s: int, c: char, v: int): Table
  {
    table[s := (if s in table then table[s] else map[])[c := v]]
  }

  lemma SourcesAdd(r: Moves, k: (int, char), v: int)
    ensures Sources(r[k := v]) == Sources(r) + {k.0}
  {
    var r1 := r[k := v];
    forall s | s in Sources(r1) ensures s in Sources(r) + {k.0} {
      var k' :| k' in r1 && k'.0 == s;
      if k' != k { assert k' in r; }
    }
    assert k in r1;
  }

  lemma SymbolsAdd(r: Moves, k: (int, char), v: int, s: int)
    ensures SymbolsFrom(r[k := v], s) == SymbolsFrom(r, s) + (if s == k.0 then {k.1} else {})
  {
    var r1 := r[k := v];
    forall c | c in SymbolsFrom(r1, s) ensures c in SymbolsFrom(r, s) + (if s == k.0 then {k.1} else {}) {
      var k' :| k' in r1 && k'.0 == s && k'.1 == c;
      if k' != k { assert k' in r; }
    }
    forall c | c in SymbolsFrom(r, s) ensures c in SymbolsFrom(r1, s) {
      var k' :| k' in r && k'.0 == s && k'.1 == c;
      assert k' in r1;
    }
    if s == k.0 { assert k in r1; }
  }

  /** The row of one source state after a new key is added. */
  lemma RowAdd(r: Moves, k: (int, char), v: int, s: int)
    requires k !in r && s in Sources(r[k := v])
    ensures TableOf(r[k := v])[s] == WithEntry(TableOf(r), k.0, k.1, v)[s]
  {
    SymbolsAdd(r, k, v, s);
    if s == k.0 && s !in TableOf(r) {
      assert SymbolsFrom(r, s) == {};
    }
  }

  /** A new key added to the transitions adds one entry to its source's row. */
  lemma TableAdd(r: Moves, k: (int, char), v: int)
    requires k !in r
    ensures TableOf(r[k := v]) == WithEntry(TableOf(r), k.0, k.1, v)
  {
    var r1 := r[k := v];
    var after := WithEntry(TableOf(r), k.0, k.1, v);
    SourcesAdd(r, k, v);
    forall s | s in Sources(r1) ensures TableOf(r1)[s] == after[s] {
      RowAdd(r, k, v, s);
    }
    assert TableOf(r1).Keys == after.Keys;
  }

  /** One more key of `t` added to the restricted table. */
  lemma TableStep(t: Moves, done: set<(int, char)>, k: (int, char))
    requires k in t && k !in done
    ensures TableOf(Restrict(t, done + {k})) == WithEntry(TableOf(Restrict(t, done)), k.0, k.1, t[k])
  {
    assert Restrict(t, done + {k}) == Restrict(t, done)[k := t[k]];
    TableAdd(Restrict(t, done), k, t[k]);
  }

  /** Restricting to no key gives the empty table; restricting to every key gives the map back. */
  lemma RestrictEnds(t: Moves)
    ensures TableOf(Restrict(t, {})) == map[]
    ensures Restrict(t, t.Keys) == t
  {
    assert Restrict(t, {}) == map[];
  }

  /** The loop of `get_transition_table`: one table entry per transition item, in any order. */
  method BuildTable(t: Moves) returns (table: Table)
    ensures table == TableOf(t)
  {
    table := map[];
    var todo := t.Keys;
    ghost var done: set<(int, char)> := {};
    RestrictEnds(t);
    while todo != {}
      invariant done + todo == t.Keys && done !! todo
      invariant table == TableOf(Restrict(t, done))
      decreases |todo|
    {
      var k := Choose(todo);
      TableStep(t, done, k);
      table := WithEntry(table, k.0, k.1, t[k]);
      done := done + {k};
      todo := todo - {k};
    }
  }

  /** The state reached from `s` by reading `w`, or None when a transition is missing on the way. */
  function Run(t: Moves, s: int, w: string): Option<int>
    decreases w
  {
    if w == [] then Some(s)
    else if (s, w[0]) in t then Run(t, t[(s, w[0])], w[1..])
    else None
  }

  /** Reading `w` from `s` ends in a state of `accepts`. */
  predicate Accepted(t: Moves, accepts: set<int>, s: int, w: string)
  {
    var r := Run(t, s, w);
    r.Some? && r.value in accepts
  }

  class Dfa {
    var states: set<int>
    var alphabet: set<char>
    var transitions: Moves
    var start: int
    var accepts: set<int>

    /** `DFA()`: start state 0, every collection empty. */
    constructor ()
      ensures states == {} && alphabet == {} && transitions == map[] && start == 0 && accepts == {}
    {
      states, alphabet, transitions, start, accepts := {}, {}, map[], 0, {};
    }

    /** `DFA(...)` from given fields. */
    constructor FromParts(states: set<int>, alphabet: set<char>, transitions: Moves, start: int, accepts: set<int>)
      ensures this.states == states && this.alphabet == alphabet && this.transitions == transitions
      ensures this.start == start && this.accepts == accepts
    {
      this.states, this.alphabet, this.transitions := states, alphabet, transitions;
      this.start, this.accepts := start, accepts;
    }

    /** `get_transition_table`: the nested table of this DFA's transitions. */
    method GetTransitionTable() returns (table: Table)
      ensures table == TableOf(transitions)
    {
      table := BuildTable(transitions);
    }
  }
}
