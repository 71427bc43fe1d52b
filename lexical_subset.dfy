/**
 * Subset construction (`SubsetConstructor`): the epsilon closure of a state
 * set, the `move` of a state set on one symbol, and the worklist that turns
 * an NFA into a DFA whose states stand for the closures it discovers.
 */
module SubsetConstruction {
  import opened Wrappers
  import opened FiniteSets
  import opened LexState
  import opened StateFactory
  import opened Nfa
  import opened Dfa

  /** The targets of the epsilon edges leaving `s`. */
  function EpsTargets(t: Transitions, s: int): set<int>
  {
    Targets(t, (s, None))
  }

  /** Every state that is the target of some edge of `t`. */
  function AllTargets(t: Transitions): set<int>
  {
    set k, x | k in t && x in t[k] :: x
  }

  lemma TargetsWithin(t: Transitions, key: Key)
    ensures Targets(t, key) <= AllTargets(t)
  {
    forall x | x in Targets(t, key) ensures x in AllTargets(t) {
      assert key in t && x in t[key];
    }
  }

  /** No epsilon edge leaves `c`. */
  ghost predicate EpsClosed(t: Transitions, c: set<int>)
  {
    forall x :: x in c ==> EpsTargets(t, x) <= c
  }

  /** `p` is a chain of epsilon edges from a state of `from` to `x`. */
  ghost predicate EpsPath(t: Transitions, from: set<int>, p: seq<int>, x: int)
  {
    && |p| >= 1 && p[0] in from && p[|p| - 1] == x
    && forall i :: 0 <= i < |p| - 1 ==> p[i + 1] in EpsTargets(t, p[i])
  }

  /** `x` can be reached from `from` by epsilon edges alone (zero or more of them). */
  ghost predicate EpsReachable(t: Transitions, from: set<int>, x: int)
  {
    exists p :: EpsPath(t, from, p, x)
  }

  /**
   * `c` is the epsilon closure of `from`: it contains `from`, no epsilon edge
   * leaves it, and every state in it is epsilon-reachable from `from`.
   */
  ghost predicate IsClosureOf(t: Transitions, from: set<int>, c: set<int>)
  {
    && from <= c
    && EpsClosed(t, c)
    && forall x :: x in c ==> EpsReachable(t, from, x)
  }

  /** A set that contains `from` and is closed under epsilon edges holds the end of every epsilon path. */
  lemma {:induction false} PathEndsInClosed(t: Transitions, from: set<int>, d: set<int>, p: seq<int>, x: int)
    requires from <= d && EpsClosed(t, d) && EpsPath(t, from, p, x)
    ensures x in d
    decreases |p|
  {
    if |p| > 1 {
      var q := p[..|p| - 1];
      assert EpsPath(t, from, q, q[|q| - 1]);
      PathEndsInClosed(t, from, d, q, q[|q| - 1]);
      assert x in EpsTargets(t, q[|q| - 1]);
    }
  }

  /** The closure is the least epsilon-closed superset: it holds every reachable state and nothing else. */
  lemma ClosureIsLeast(t: Transitions, from: set<int>, c: set<int>, d: set<int>)
    requires IsClosureOf(t, from, c)
    requires from <= d && EpsClosed(t, d)
    ensures c <= d
  {
    forall x | x in c ensures x in d {
      var p :| EpsPath(t, from, p, x);
      PathEndsInClosed(t, from, d, p, x);
    }
  }

  /** The epsilon closure of a set is unique. */
  lemma ClosureUnique(t: Transitions, from: set<int>, c1: set<int>, c2: set<int>)
    requires IsClosureOf(t, from, c1) && IsClosureOf(t, from, c2)
    ensures c1 == c2
  {
    ClosureIsLeast(t, from, c1, c2);
    ClosureIsLeast(t, from, c2, c1);
  }

  /** The closure is empty exactly when the set it starts from is. */
  lemma ClosureEmpty(t: Transitions, from: set<int>, c: set<int>)
    requires IsClosureOf(t, from, c)
    ensures c == {} <==> from == {}
  {
    if from == {} {
      ClosureIsLeast(t, from, c, {});
    }
  }

  /** A path extended by one more epsilon edge. */
  lemma PathExtend(t: Transitions, from: set<int>, p: seq<int>, x: int, y: int)
    requires EpsPath(t, from, p, x) && y in EpsTargets(t, x)
    ensures EpsPath(t, from, p + [y], y)
  {
    var q := p + [y];
    forall i | 0 <= i < |q| - 1 ensures q[i + 1] in EpsTargets(t, q[i]) {
      if i < |p| - 1 {
        assert q[i] == p[i] && q[i + 1] == p[i + 1];
      }
    }
  }

  /** The loop state of `epsilon_closure`: every state popped off the stack has had its epsilon edges followed. */
  ghost predicate ClosureLoop(t: Transitions, from: set<int>, closure: set<int>, stack: seq<int>,
                              paths: map<int, seq<int>>, skip: Option<int>)
  {
    && from <= closure <= from + AllTargets(t)
    && (forall x :: x in stack ==> x in closure)
    && (forall x :: x in closure && x !in stack && skip != Some(x) ==> EpsTargets(t, x) <= closure)
    && (forall x :: x in closure ==> x in paths && EpsPath(t, from, paths[x], x))
  }

  /** The loop state of `epsilon_closure` before the first pop: each state of `from` is reached by the one-state path. */
  lemma ClosureStart(t: Transitions, from: set<int>, stack: seq<int>) returns (paths: map<int, seq<int>>)
    requires forall x :: x in stack <==> x in from
    ensures ClosureLoop(t, from, from, stack, paths, None)
  {
    paths := map x | x in from :: [x];
    forall x | x in from ensures EpsPath(t, from, paths[x], x) {
    }
  }

  /** With an empty stack, the loop state describes the closure. */
  lemma ClosureDone(t: Transitions, from: set<int>, closure: set<int>, paths: map<int, seq<int>>)
    requires ClosureLoop(t, from, closure, [], paths, None)
    ensures IsClosureOf(t, from, closure)
  {
    forall x | x in closure ensures EpsReachable(t, from, x) {
      assert EpsPath(t, from, paths[x], x);
    }
  }

  /** The body of the `epsilon_closure` loop for one popped state: its epsilon targets not yet in the closure join it and are pushed. */
  method FollowEpsilon(t: Transitions, from: set<int>, state: int, closure0: set<int>, stack0: seq<int>,
                       ghost paths0: map<int, seq<int>>)
    returns (closure: set<int>, stack: seq<int>, ghost paths: map<int, seq<int>>)
    requires ClosureLoop(t, from, closure0, stack0, paths0, Some(state)) && state in closure0
    ensures ClosureLoop(t, from, closure, stack, paths, None)
    ensures closure0 <= closure && (closure == closure0 ==> stack == stack0)
  {
    closure, stack, paths := closure0, stack0, paths0;
    var todo := EpsTargets(t, state);
    TargetsWithin(t, (state, None));
    while todo != {}
      invariant ClosureLoop(t, from, closure, stack, paths, Some(state))
      invariant todo <= EpsTargets(t, state) && EpsTargets(t, state) - todo <= closure
      invariant closure0 <= closure && (closure == closure0 ==> stack == stack0)
      decreases |todo|
    {
      var next := Choose(todo);
      todo := todo - {next};
      if next !in closure {
        PathExtend(t, from, paths[state], state, next);
        paths := paths[next := paths[state] + [next]];
        closure := closure + {next};
        stack := stack + [next];
      }
    }
  }

  /**
   * `epsilon_closure`: a stack of states still to expand; each epsilon target
   * not yet in the closure joins it and is pushed.
   */
  method EpsilonClosure(t: Transitions, states: set<int>) returns (closure: set<int>)
    ensures IsClosureOf(t, states, closure)
    ensures closure <= states + AllTargets(t)
  {
    closure := states;
    var stack := ToSeq(states);
    ghost var paths := ClosureStart(t, states, stack);
    ghost var u := states + AllTargets(t);
    while stack != []
      invariant ClosureLoop(t, states, closure, stack, paths, None)
      decreases |u - closure|, |stack|
    {
      var state := stack[|stack| - 1];
      stack := stack[..|stack| - 1];
      ghost var closure0 := closure;
      closure, stack, paths := FollowEpsilon(t, states, state, closure, stack, paths);
      if closure != closure0 {
        ShrinkingRest(u, closure0, closure);
      }
    }
    ClosureDone(t, states, closure, paths);
  }

  /** `move(states, symbol)` as a set: every target of a `symbol` edge leaving a state of `states`. */
  function MoveSet(t: Transitions, states: set<int>, symbol: char): set<int>
  {
    set s, x | s in states && x in Targets(t, (s, Some(symbol))) :: x
  }

  /** One more source state adds exactly its `symbol` targets. */
  lemma MoveAdd(t: Transitions, states: set<int>, s: int, symbol: char)
    ensures MoveSet(t, states + {s}, symbol) == MoveSet(t, states, symbol) + Targets(t, (s, Some(symbol)))
  {
    var key := (s, Some(symbol));
    forall x | x in Targets(t, key) ensures x in MoveSet(t, states + {s}, symbol) {
      assert s in states + {s};
    }
  }

  /** A move never leaves the states that are edge targets. */
  lemma MoveWithin(t: Transitions, states: set<int>, symbol: char)
    ensures MoveSet(t, states, symbol) <= AllTargets(t)
  {
    forall x | x in MoveSet(t, states, symbol) ensures x in AllTargets(t) {
      var s :| s in states && x in Targets(t, (s, Some(symbol)));
      TargetsWithin(t, (s, Some(symbol)));
    }
  }

  /** `move`: the `symbol` targets of every state of `states`, gathered in one set, with no closure taken. */
  method Move(t: Transitions, states: set<int>, symbol: char) returns (result: set<int>)
    ensures result == MoveSet(t, states, symbol)
  {
    result := {};
    var todo := states;
    assert MoveSet(t, {}, symbol) == {};
    while todo != {}
      invariant todo <= states && result == MoveSet(t, states - todo, symbol)
      decreases |todo|
    {
      var s := Choose(todo);
      MoveAdd(t, states - todo, s, symbol);
      assert states - (todo - {s}) == (states - todo) + {s};
      result := result + Targets(t, (s, Some(symbol)));
      todo := todo - {s};
    }
    assert states - todo == states;
  }

  /** `any(s.is_accepting for s in closure)`. */
  predicate AnyAccepting(records: map<int, State>, closure: set<int>)
  {
    exists x :: x in closure && IsAccepting(records, x)
  }

  /**
   * The mutable state of `construct`: the `state_map` from closures to DFA
   * ids, the `states`, `accept_states` and `transitions` of the DFA being
   * filled, and the worklist of closures still to expand.
   */
  datatype Work = Work(stateMap: map<set<int>, int>, states: set<int>, accepts: set<int>, trans: Moves,
                       worklist: seq<set<int>>)

  /**
   * The DFA states discovered so far, `order[i]` being the closure of DFA
   * state `i`: state 0 is the closure of the NFA start, the closures are
   * distinct NFA state sets, `stateMap` numbers them, and a DFA state is
   * accepting exactly when its closure holds an accepting NFA state.
   */
  ghost predicate Discovered(t: Transitions, records: map<int, State>, start: int, order: seq<set<int>>,
                             stateMap: map<set<int>, int>, states: set<int>, accepts: set<int>)
  {
    var ok :=
      && |order| >= 1 && IsClosureOf(t, {start}, order[0])
      && (forall i, j :: 0 <= i < j < |order| ==> order[i] != order[j])
      && (forall i :: 0 <= i < |order| ==> order[i] <= {start} + AllTargets(t))
      && (forall c :: c in stateMap <==> c in order)
      && (forall i :: 0 <= i < |order| ==> stateMap[order[i]] == i)
      && |stateMap| == |order|
      && (forall i :: i in states <==> 0 <= i < |order|)
      && (forall i :: i in accepts <==> 0 <= i < |order| && AnyAccepting(records, order[i]));
    ok
  }

  /** Some recorded transition from a state before `i` leads to `i`. */
  ghost predicate EnteredEarlier(trans: Moves, i: int)
  {
    exists k :: k in trans && k.0 < i && trans[k] == i
  }

  /**
   * Every DFA state after state 0 and below `n` is entered from an earlier
   * state: the worklist loop only numbers a closure when a move of the state
   * being expanded leads to it.
   */
  ghost predicate ReachedInOrder(trans: Moves, n: int)
  {
    forall i :: 0 < i < n ==> EnteredEarlier(trans, i)
  }

  /** A new transition from `cur` may reach the state numbered last, and keeps every earlier witness. */
  lemma ReachedAdd(trans: Moves, n0: int, n: int, k: (int, char), j: int)
    requires ReachedInOrder(trans, n0) && k !in trans && 0 <= k.0 < n0
    requires n == n0 || (n == n0 + 1 && j == n0)
    ensures ReachedInOrder(trans[k := j], n)
  {
    var trans1 := trans[k := j];
    forall i | 0 < i < n ensures EnteredEarlier(trans1, i) {
      if i < n0 {
        assert EnteredEarlier(trans, i);
        var k' :| k' in trans && k'.0 < i && trans[k'] == i;
        assert k' != k && trans1[k'] == i;
      } else {
        assert trans1[k] == i;
      }
    }
  }

  /** The pairs (DFA state, symbol) already handled: every state before `cur`, and `cur` on `symbols`. */
  predicate Handled(cur: int, symbols: set<char>, i: int, c: char)
  {
    i < cur || (i == cur && c in symbols)
  }

  /**
   * One recorded transition `k -> target`: a handled pair, on a symbol of the
   * alphabet, from the closure of a DFA state to the DFA state whose closure
   * is the closure of the move.
   */
  ghost predicate EdgeOk(t: Transitions, alphabet: set<char>, order: seq<set<int>>, cur: int, symbols: set<char>,
                         k: (int, char), target: int)
  {
    && Handled(cur, symbols, k.0, k.1) && k.1 in alphabet
    && 0 <= k.0 < |order| && 0 <= target < |order|
    && IsClosureOf(t, MoveSet(t, order[k.0], k.1), order[target])
  }

  /**
   * The DFA transitions recorded so far: each one is an `EdgeOk`, and a
   * handled pair has a transition exactly when its move is not empty.
   */
  ghost predicate Linked(t: Transitions, alphabet: set<char>, order: seq<set<int>>, trans: Moves,
                         cur: int, symbols: set<char>)
  {
    var ok :=
      && (forall k :: k in trans ==> EdgeOk(t, alphabet, order, cur, symbols, k, trans[k]))
      && (forall i, c :: 0 <= i < |order| && c in alphabet && Handled(cur, symbols, i, c) ==>
            ((i, c) in trans <==> MoveSet(t, order[i], c) != {}));
    ok
  }

  /** The loop state of `construct` while the DFA state `cur`, whose closure is `current`, is being expanded. */
  ghost predicate Expanding(t: Transitions, alphabet: set<char>, records: map<int, State>, start: int,
                            order: seq<set<int>>, w: Work, current: set<int>, cur: int, symbols: set<char>)
  {
    Tracking(t, alphabet, records, start, order, w, current, cur, symbols) && ReachedInOrder(w.trans, |order|)
  }

  /** `Expanding` but for the order of discovery, which a closure just numbered has still to be linked to. */
  ghost predicate Tracking(t: Transitions, alphabet: set<char>, records: map<int, State>, start: int,
                           order: seq<set<int>>, w: Work, current: set<int>, cur: int, symbols: set<char>)
  {
    var ok :=
      && Discovered(t, records, start, order, w.stateMap, w.states, w.accepts)
      && Linked(t, alphabet, order, w.trans, cur, symbols)
      && 0 <= cur < |order| && current == order[cur] && w.worklist == order[cur + 1..];
    ok
  }

  /** The loop over the alphabet for state `cur`: `symbols` handled, `todo` still to handle. */
  ghost predicate Sweeping(t: Transitions, alphabet: set<char>, records: map<int, State>, start: int,
                           order: seq<set<int>>, w: Work, current: set<int>, cur: int,
                           symbols: set<char>, todo: set<char>)
  {
    var ok :=
      && Expanding(t, alphabet, records, start, order, w, current, cur, symbols)
      && symbols + todo == alphabet && symbols !! todo;
    ok
  }

  lemma SweepOpen(t: Transitions, alphabet: set<char>, records: map<int, State>, start: int,
                  order: seq<set<int>>, w: Work, current: set<int>, cur: int,
                  symbols: set<char>, todo: set<char>, c: char)
    requires Sweeping(t, alphabet, records, start, order, w, current, cur, symbols, todo) && c in todo
    ensures Expanding(t, alphabet, records, start, order, w, current, cur, symbols)
    ensures c in alphabet && c !in symbols
  {
  }

  lemma SweepClose(t: Transitions, alphabet: set<char>, records: map<int, State>, start: int,
                   order: seq<set<int>>, w: Work, current: set<int>, cur: int,
                   symbols: set<char>, todo: set<char>, c: char)
    requires Expanding(t, alphabet, records, start, order, w, current, cur, symbols + {c})
    requires symbols + todo == alphabet && symbols !! todo && c in todo
    ensures Sweeping(t, alphabet, records, start, order, w, current, cur, symbols + {c}, todo - {c})
  {
  }

  /** A new closure joins the discovered DFA states under the next id. */
  method AddClosure(ghost t: Transitions, records: map<int, State>, ghost start: int, ghost order0: seq<set<int>>,
                    closure: set<int>, w0: Work)
    returns (ghost order: seq<set<int>>, w: Work)
    requires Discovered(t, records, start, order0, w0.stateMap, w0.states, w0.accepts)
    requires closure !in w0.stateMap && closure <= AllTargets(t)
    ensures Discovered(t, records, start, order, w.stateMap, w.states, w.accepts)
    ensures order == order0 + [closure] && w.trans == w0.trans && w.worklist == w0.worklist + [closure]
  {
    var id := |w0.stateMap|;
    assert id == |order0|;
    order := order0 + [closure];
    var accepts := if AnyAccepting(records, closure) then w0.accepts + {id} else w0.accepts;
    w := Work(w0.stateMap[closure := id], w0.states + {id}, accepts, w0.trans, w0.worklist + [closure]);
    assert forall i :: 0 <= i < |order0| ==> order[i] == order0[i];
    assert forall i :: i in w.states <==> 0 <= i < |order| by {
      forall i ensures i in w.states <==> 0 <= i < |order| {
        assert i in w0.states <==> 0 <= i < |order0|;
      }
    }
  }

  /** A longer list of closures keeps the recorded transitions valid. */
  lemma LinkedExtend(t: Transitions, alphabet: set<char>, order0: seq<set<int>>, order: seq<set<int>>, trans: Moves,
                     cur: int, symbols: set<char>)
    requires Linked(t, alphabet, order0, trans, cur, symbols)
    requires 0 <= cur < |order0| <= |order| && order[..|order0|] == order0
    ensures Linked(t, alphabet, order, trans, cur, symbols)
  {
    forall i | 0 <= i < |order0| ensures order[i] == order0[i] {
      assert order[..|order0|][i] == order[i];
    }
    forall k | k in trans ensures EdgeOk(t, alphabet, order, cur, symbols, k, trans[k]) {
      assert EdgeOk(t, alphabet, order0, cur, symbols, k, trans[k]);
    }
    forall i, c | 0 <= i < |order| && c in alphabet && Handled(cur, symbols, i, c)
      ensures (i, c) in trans <==> MoveSet(t, order[i], c) != {}
    {
      assert i < |order0|;
    }
  }

  /** Handling `c` for state `cur` when its move is empty: no transition. */
  lemma LinkedSkip(t: Transitions, alphabet: set<char>, order: seq<set<int>>, trans: Moves,
                   cur: int, symbols: set<char>, c: char)
    requires Linked(t, alphabet, order, trans, cur, symbols)
    requires 0 <= cur < |order| && c in alphabet && c !in symbols && MoveSet(t, order[cur], c) == {}
    ensures Linked(t, alphabet, order, trans, cur, symbols + {c})
  {
    assert (cur, c) !in trans;
  }

  /** Handling `c` for state `cur` when its move is not empty: a transition to the state of its closure. */
  lemma LinkedAdd(t: Transitions, alphabet: set<char>, order: seq<set<int>>, trans: Moves,
                  cur: int, symbols: set<char>, c: char, j: int)
    requires Linked(t, alphabet, order, trans, cur, symbols)
    requires 0 <= cur < |order| && c in alphabet && c !in symbols && MoveSet(t, order[cur], c) != {}
    requires 0 <= j < |order| && IsClosureOf(t, MoveSet(t, order[cur], c), order[j])
    ensures Linked(t, alphabet, order, trans[(cur, c) := j], cur, symbols + {c})
  {
    var trans1 := trans[(cur, c) := j];
    forall k | k in trans1 ensures EdgeOk(t, alphabet, order, cur, symbols + {c}, k, trans1[k]) {
      if k != (cur, c) {
        assert EdgeOk(t, alphabet, order, cur, symbols, k, trans[k]);
      }
    }
    forall i, d | 0 <= i < |order| && d in alphabet && Handled(cur, symbols + {c}, i, d)
      ensures (i, d) in trans1 <==> MoveSet(t, order[i], d) != {}
    {
      if (i, d) != (cur, c) {
        assert Handled(cur, symbols, i, d);
      }
    }
  }

  /** Once every symbol of `cur` is handled, the next state starts with none. */
  lemma LinkedNext(t: Transitions, alphabet: set<char>, order: seq<set<int>>, trans: Moves, cur: int)
    requires Linked(t, alphabet, order, trans, cur, alphabet)
    ensures Linked(t, alphabet, order, trans, cur + 1, {})
  {
  }

  /** Appending to the closure list keeps its prefix and extends the part after `cur`. */
  lemma AppendSlices(order0: seq<set<int>>, x: set<int>, cur: int)
    requires 0 <= cur < |order0|
    ensures (order0 + [x])[..|order0|] == order0
    ensures (order0 + [x])[cur + 1..] == order0[cur + 1..] + [x]
    ensures (order0 + [x])[cur] == order0[cur]
  {
  }

  /** The id `stateMap` gives a discovered closure is its index in the closure list. */
  lemma StateMapIndex(t: Transitions, records: map<int, State>, start: int, order: seq<set<int>>, w: Work,
                      closure: set<int>)
    requires Discovered(t, records, start, order, w.stateMap, w.states, w.accepts) && closure in w.stateMap
    ensures 0 <= w.stateMap[closure] < |order| && order[w.stateMap[closure]] == closure
  {
    var i :| 0 <= i < |order| && order[i] == closure;
  }

  /**
   * The `state_map` lookup of `construct`: a closure not seen before gets the
   * next id, the last one, and is queued; either way its id is returned.
   */
  method Discover(ghost t: Transitions, ghost alphabet: set<char>, records: map<int, State>, ghost start: int,
                  ghost order0: seq<set<int>>, w0: Work, ghost current: set<int>, ghost cur: int,
                  ghost symbols: set<char>, closure: set<int>)
    returns (ghost order: seq<set<int>>, w: Work, j: int)
    requires Expanding(t, alphabet, records, start, order0, w0, current, cur, symbols)
    requires closure <= AllTargets(t)
    ensures Tracking(t, alphabet, records, start, order, w, current, cur, symbols)
    ensures |order| == |order0| || (|order| == |order0| + 1 && j == |order0|)
    ensures 0 <= j < |order| && order[j] == closure && w.trans == w0.trans
  {
    if closure !in w0.stateMap {
      ghost var o;
      var x;
      o, x := AddClosure(t, records, start, order0, closure, w0);
      AppendSlices(order0, closure, cur);
      LinkedExtend(t, alphabet, order0, o, x.trans, cur, symbols);
      StateMapIndex(t, records, start, o, x, closure);
      order, w, j := o, x, x.stateMap[closure];
    } else {
      StateMapIndex(t, records, start, order0, w0, closure);
      order, w, j := order0, w0, w0.stateMap[closure];
    }
  }

  /**
   * One pass of the loop over the alphabet in `construct`: the closure of the
   * move of the current DFA state on `c`; nothing when it is empty, otherwise
   * a transition to its DFA state, discovered and queued first if it is new.
   */
  method StepSymbol(t: Transitions, alphabet: set<char>, records: map<int, State>, ghost start: int,
                    ghost order0: seq<set<int>>, w0: Work, current: set<int>, cur: int, ghost symbols: set<char>,
                    c: char)
    returns (ghost order: seq<set<int>>, w: Work)
    requires Expanding(t, alphabet, records, start, order0, w0, current, cur, symbols)
    requires c in alphabet && c !in symbols
    ensures Expanding(t, alphabet, records, start, order, w, current, cur, symbols + {c})
  {
    var next := Move(t, current, c);
    var closure := EpsilonClosure(t, next);
    ClosureEmpty(t, next, closure);
    if closure == {} {
      LinkedSkip(t, alphabet, order0, w0.trans, cur, symbols, c);
      order, w := order0, w0;
    } else {
      MoveWithin(t, current, c);
      ghost var o;
      var x, j;
      o, x, j := Discover(t, alphabet, records, start, order0, w0, current, cur, symbols, closure);
      LinkedAdd(t, alphabet, o, x.trans, cur, symbols, c, j);
      assert (cur, c) !in x.trans by { assert !Handled(cur, symbols, cur, c); }
      ReachedAdd(x.trans, |order0|, |o|, (cur, c), j);
      order, w := o, x.(trans := x.trans[(cur, c) := j]);
    }
  }

  /** The loop over the alphabet in `construct`, for the DFA state `cur` just taken off the worklist. */
  method ExpandState(t: Transitions, alphabet: set<char>, records: map<int, State>, ghost start: int,
                     ghost order0: seq<set<int>>, w0: Work, current: set<int>, cur: int)
    returns (ghost order: seq<set<int>>, w: Work)
    requires Expanding(t, alphabet, records, start, order0, w0, current, cur, {})
    ensures Expanding(t, alphabet, records, start, order, w, current, cur, alphabet)
  {
    ghost var o := order0;
    var x := w0;
    var todo := alphabet;
    ghost var symbols: set<char> := {};
    while todo != {}
      invariant Sweeping(t, alphabet, records, start, o, x, current, cur, symbols, todo)
      decreases |todo|
    {
      var c := Choose(todo);
      SweepOpen(t, alphabet, records, start, o, x, current, cur, symbols, todo, c);
      o, x := StepSymbol(t, alphabet, records, start, o, x, current, cur, symbols, c);
      SweepClose(t, alphabet, records, start, o, x, current, cur, symbols, todo, c);
      todo := todo - {c};
      symbols := symbols + {c};
    }
    assert symbols == alphabet;
    order, w := o, x;
  }

  /**
   * What `construct` promises about the DFA it returns, with `closures[i]`
   * the NFA state set of DFA state `i`: the ids are `0 .. n-1`, state 0 is
   * the closure of the NFA start, distinct ids stand for distinct closures,
   * a state accepts exactly when its closure holds an accepting NFA state,
   * there is a transition on a symbol of the alphabet exactly when the
   * move is not empty, leading to the state of the closure of the move, and
   * every state after state 0 is the target of a transition from an earlier
   * one, so it was discovered from the start closure in that order.
   */
  ghost predicate IsSubsetDfa(t: Transitions, alphabet: set<char>, records: map<int, State>, start: int,
                              closures: seq<set<int>>, states: set<int>, accepts: set<int>, trans: Moves)
  {
    var ok :=
      && |closures| >= 1 && IsClosureOf(t, {start}, closures[0])
      && (forall i, j :: 0 <= i < j < |closures| ==> closures[i] != closures[j])
      && (forall i :: i in states <==> 0 <= i < |closures|)
      && (forall i :: i in accepts <==> 0 <= i < |closures| && AnyAccepting(records, closures[i]))
      && (forall k :: k in trans ==>
            && k.1 in alphabet && 0 <= k.0 < |closures| && 0 <= trans[k] < |closures|
            && IsClosureOf(t, MoveSet(t, closures[k.0], k.1), closures[trans[k]]))
      && (forall i, c :: 0 <= i < |closures| && c in alphabet ==>
            ((i, c) in trans <==> MoveSet(t, closures[i], c) != {}))
      && ReachedInOrder(trans, |closures|);
    ok
  }

  /** The loop state of `construct` once the start closure is state 0. */
  lemma Started(t: Transitions, alphabet: set<char>, records: map<int, State>, start: int, closure: set<int>, w: Work)
    requires IsClosureOf(t, {start}, closure) && closure <= {start} + AllTargets(t)
    requires w == Work(map[closure := 0], {0}, if AnyAccepting(records, closure) then {0} else {}, map[], [closure])
    ensures Discovered(t, records, start, [closure], w.stateMap, w.states, w.accepts)
    ensures ReachedInOrder(w.trans, 1) && Linked(t, alphabet, [closure], w.trans, 0, {})
  {
    var order := [closure];
    assert w.stateMap.Keys == {closure} && |w.stateMap| == 1;
    assert forall c :: c in w.stateMap <==> c in order;
    assert forall i :: 0 <= i < |order| ==> w.stateMap[order[i]] == i;
    assert forall i :: i in w.states <==> 0 <= i < |order|;
    assert forall i :: i in w.accepts <==> 0 <= i < |order| && AnyAccepting(records, order[i]);
    assert forall i :: 0 <= i < |order| ==> order[i] <= {start} + AllTargets(t);
  }

  /** When every discovered state has been handled, the loop state is the promised DFA. */
  lemma Finished(t: Transitions, alphabet: set<char>, records: map<int, State>, start: int, order: seq<set<int>>,
                 w: Work)
    requires Discovered(t, records, start, order, w.stateMap, w.states, w.accepts) && ReachedInOrder(w.trans, |order|)
    requires Linked(t, alphabet, order, w.trans, |order|, {})
    ensures IsSubsetDfa(t, alphabet, records, start, order, w.states, w.accepts, w.trans)
  {
    forall k | k in w.trans
      ensures && k.1 in alphabet && 0 <= k.0 < |order| && 0 <= w.trans[k] < |order|
              && IsClosureOf(t, MoveSet(t, order[k.0], k.1), order[w.trans[k]])
    {
      assert EdgeOk(t, alphabet, order, |order|, {}, k, w.trans[k]);
    }
    forall i, c | 0 <= i < |order| && c in alphabet
      ensures (i, c) in w.trans <==> MoveSet(t, order[i], c) != {}
    {
      assert Handled(|order|, {}, i, c);
    }
  }

  /** Read off `IsSubsetDfa`: a later state is the closure of the non-empty move of an earlier one. */
  lemma SubsetEntered(t: Transitions, alphabet: set<char>, records: map<int, State>, start: int,
                      closures: seq<set<int>>, states: set<int>, accepts: set<int>, trans: Moves, i: int)
    returns (j: int, c: char)
    requires IsSubsetDfa(t, alphabet, records, start, closures, states, accepts, trans) && 0 < i < |closures|
    ensures 0 <= j < i && c in alphabet && MoveSet(t, closures[j], c) != {}
    ensures IsClosureOf(t, MoveSet(t, closures[j], c), closures[i])
  {
    assert EnteredEarlier(trans, i);
    var k :| k in trans && k.0 < i && trans[k] == i;
    j, c := k.0, k.1;
  }

  /** Read off `IsSubsetDfa`: a non-empty move has a transition to the state of its closure. */
  lemma SubsetEdge(t: Transitions, alphabet: set<char>, records: map<int, State>, start: int,
                   closures: seq<set<int>>, states: set<int>, accepts: set<int>, trans: Moves, m: int, c: char)
    requires IsSubsetDfa(t, alphabet, records, start, closures, states, accepts, trans)
    requires 0 <= m < |closures| && c in alphabet && MoveSet(t, closures[m], c) != {}
    ensures (m, c) in trans && 0 <= trans[(m, c)] < |closures|
    ensures IsClosureOf(t, MoveSet(t, closures[m], c), closures[trans[(m, c)]])
  {
  }

  /** Each state of one subset DFA of the NFA is a state of any other. */
  lemma {:induction false} SubsetStateShared(t: Transitions, alphabet: set<char>, records: map<int, State>, start: int,
                                             c1: seq<set<int>>, s1: set<int>, a1: set<int>, tr1: Moves,
                                             c2: seq<set<int>>, s2: set<int>, a2: set<int>, tr2: Moves, i: int)
    requires IsSubsetDfa(t, alphabet, records, start, c1, s1, a1, tr1)
    requires IsSubsetDfa(t, alphabet, records, start, c2, s2, a2, tr2)
    requires 0 <= i < |c1|
    ensures c1[i] in c2
    decreases i
  {
    if i == 0 {
      ClosureUnique(t, {start}, c1[0], c2[0]);
    } else {
      var j, c := SubsetEntered(t, alphabet, records, start, c1, s1, a1, tr1, i);
      SubsetStateShared(t, alphabet, records, start, c1, s1, a1, tr1, c2, s2, a2, tr2, j);
      var m :| 0 <= m < |c2| && c2[m] == c1[j];
      SubsetEdge(t, alphabet, records, start, c2, s2, a2, tr2, m, c);
      ClosureUnique(t, MoveSet(t, c2[m], c), c1[i], c2[tr2[(m, c)]]);
    }
  }

  /**
   * The DFA states are determined by the NFA: two subset DFAs of it hold the
   * same closures and have as many states, so they differ at most in the
   * order in which the closures were numbered.
   */
  lemma SubsetDfaUnique(t: Transitions, alphabet: set<char>, records: map<int, State>, start: int,
                        c1: seq<set<int>>, s1: set<int>, a1: set<int>, tr1: Moves,
                        c2: seq<set<int>>, s2: set<int>, a2: set<int>, tr2: Moves)
    requires IsSubsetDfa(t, alphabet, records, start, c1, s1, a1, tr1)
    requires IsSubsetDfa(t, alphabet, records, start, c2, s2, a2, tr2)
    ensures (forall x :: x in c1 <==> x in c2) && |c1| == |c2|
  {
    forall x | x in c1 ensures x in c2 {
      var i :| 0 <= i < |c1| && c1[i] == x;
      SubsetStateShared(t, alphabet, records, start, c1, s1, a1, tr1, c2, s2, a2, tr2, i);
    }
    forall x | x in c2 ensures x in c1 {
      var i :| 0 <= i < |c2| && c2[i] == x;
      SubsetStateShared(t, alphabet, records, start, c2, s2, a2, tr2, c1, s1, a1, tr1, i);
    }
    DistinctElementsSize(c1);
    DistinctElementsSize(c2);
    var e1 := set i | 0 <= i < |c1| :: c1[i];
    var e2 := set i | 0 <= i < |c2| :: c2[i];
    assert forall x :: x in e1 <==> x in c1;
    assert forall x :: x in e2 <==> x in c2;
    assert e1 == e2;
  }

  /** The worklist loop of `construct`, before each pop: states before `done` are fully expanded. */
  ghost predicate Exploring(t: Transitions, alphabet: set<char>, records: map<int, State>, start: int,
                            order: seq<set<int>>, w: Work, done: int)
  {
    var ok :=
      && Discovered(t, records, start, order, w.stateMap, w.states, w.accepts) && ReachedInOrder(w.trans, |order|)
      && Linked(t, alphabet, order, w.trans, done, {})
      && 0 <= done <= |order| && w.worklist == order[done..];
    ok
  }

  /** Popping the head of the worklist: it is the closure of DFA state `done`. */
  lemma PopHead(t: Transitions, alphabet: set<char>, records: map<int, State>, start: int,
                order: seq<set<int>>, w: Work, done: int)
    requires Exploring(t, alphabet, records, start, order, w, done) && w.worklist != []
    ensures w.worklist[0] in w.stateMap && w.stateMap[w.worklist[0]] == done
    ensures Expanding(t, alphabet, records, start, order, w.(worklist := w.worklist[1..]), w.worklist[0], done, {})
  {
    StateMapIndex(t, records, start, order, w, order[done]);
  }

  /** The start closure alone, queued and numbered 0: the worklist loop can begin. */
  lemma StartLoop(t: Transitions, alphabet: set<char>, records: map<int, State>, start: int,
                  order: seq<set<int>>, w: Work)
    requires Discovered(t, records, start, order, w.stateMap, w.states, w.accepts) && |order| == 1
    requires ReachedInOrder(w.trans, 1) && Linked(t, alphabet, order, w.trans, 0, {}) && w.worklist == order
    ensures Exploring(t, alphabet, records, start, order, w, 0)
  {
    assert order[0..] == order;
  }

  /** State `cur` fully expanded: the loop moves on to the next state. */
  lemma NextExploring(t: Transitions, alphabet: set<char>, records: map<int, State>, start: int,
                      order: seq<set<int>>, w: Work, current: set<int>, cur: int)
    requires Expanding(t, alphabet, records, start, order, w, current, cur, alphabet)
    ensures Exploring(t, alphabet, records, start, order, w, cur + 1)
  {
    LinkedNext(t, alphabet, order, w.trans, cur);
  }

  /** An empty worklist: every state is expanded and the DFA is complete. */
  lemma ExploreDone(t: Transitions, alphabet: set<char>, records: map<int, State>, start: int,
                    order: seq<set<int>>, w: Work, done: int)
    requires Exploring(t, alphabet, records, start, order, w, done) && w.worklist == []
    ensures IsSubsetDfa(t, alphabet, records, start, order, w.states, w.accepts, w.trans)
  {
    assert done == |order|;
    Finished(t, alphabet, records, start, order, w);
  }

  /**
   * `construct`: the worklist of closures still to expand, taken first in,
   * first out; for each one, every symbol of the alphabet in turn.
   */
  method Explore(t: Transitions, alphabet: set<char>, records: map<int, State>, start: int)
    returns (ghost closures: seq<set<int>>, states: set<int>, accepts: set<int>, trans: Moves)
    ensures IsSubsetDfa(t, alphabet, records, start, closures, states, accepts, trans)
  {
    var startClosure := EpsilonClosure(t, {start});
    var w := Work(map[startClosure := 0], {0}, if AnyAccepting(records, startClosure) then {0} else {}, map[],
                  [startClosure]);
    ghost var order := [startClosure];
    ghost var u := {start} + AllTargets(t);
    Started(t, alphabet, records, start, startClosure, w);
    StartLoop(t, alphabet, records, start, [startClosure], w);
    ghost var done := 0;
    while w.worklist != []
      invariant Exploring(t, alphabet, records, start, order, w, done)
      decreases Pow2(|u|) - done
    {
      DistinctSubsetsBound(order, u);
      PopHead(t, alphabet, records, start, order, w, done);
      var current := w.worklist[0];
      w := w.(worklist := w.worklist[1..]);
      var cur := w.stateMap[current];
      order, w := ExpandState(t, alphabet, records, start, order, w, current, cur);
      NextExploring(t, alphabet, records, start, order, w, current, cur);
      done := done + 1;
    }
    ExploreDone(t, alphabet, records, start, order, w, done);
    closures, states, accepts, trans := order, w.states, w.accepts, w.trans;
  }

  /**
   * `SubsetConstructor.construct`. The NFA must have a start state: with
   * `None` the source fails on the accepting check of the start closure.
   */
  method Construct(nfa: Nfa, records: map<int, State>) returns (dfa: Dfa, ghost closures: seq<set<int>>)
    requires nfa.start.Some?
    ensures fresh(dfa) && dfa.alphabet == nfa.alphabet && dfa.start == 0
    ensures IsSubsetDfa(nfa.transitions, nfa.alphabet, records, nfa.start.value, closures,
                        dfa.states, dfa.accepts, dfa.transitions)
  {
    var states, accepts, trans;
    closures, states, accepts, trans := Explore(nfa.transitions, nfa.alphabet, records, nfa.start.value);
    dfa := new Dfa.FromParts(states, nfa.alphabet, trans, 0, accepts);
  }
}
