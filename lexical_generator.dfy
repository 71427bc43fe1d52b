/**
 * `LexicalGenerator`: the state counter behind `_new_state`, and `generate`,
 * which runs the pattern through `construct_simple`, the subset construction
 * and the minimizer and returns the minimized DFA's nested transition table
 * and its set of accepting states.
 */
module LexicalGenerator {
  import opened Wrappers
  import opened LexState
  import opened StateFactory
  import opened Nfa
  import opened Thompson
  import opened Dfa
  import opened SubsetConstruction
  import opened Minimization
  import opened Scanner

  /** The subset DFA fits the minimizer's language theorem: closed, no state -1, start state 0 among its states. */
  lemma SubsetDfaFits(t: Transitions, alphabet: set<char>, records: map<int, State>, start: int,
                      closures: seq<set<int>>, a: Automaton)
    requires IsSubsetDfa(t, alphabet, records, start, closures, a.states, a.accepts, a.trans)
    requires a.alphabet == alphabet && a.start == 0
    ensures Closed(a) && -1 !in Universe(a) && a.start in a.states && a.accepts <= a.states
  {
    forall i | i in a.accepts ensures i in a.states {
      assert 0 <= i < |closures|;
    }
    assert Universe(a) == a.states;
    assert 0 in a.states && -1 !in a.states;
    forall k | k in a.trans && k.0 in Universe(a) && k.1 in a.alphabet ensures a.trans[k] in Universe(a) {
      assert 0 <= a.trans[k] < |closures|;
    }
  }

  /**
   * What `generate` returns, against the subset DFA it minimized: no more
   * states, and from the minimized start the returned table and accept set
   * accept exactly the words over the alphabet that the subset DFA accepts.
   */
  lemma GeneratedSameLanguage(t: Transitions, alphabet: set<char>, records: map<int, State>, start: int,
                              closures: seq<set<int>>, sub: Automaton, parts: seq<set<int>>, reps: seq<int>,
                              min: Automaton)
    requires IsSubsetDfa(t, alphabet, records, start, closures, sub.states, sub.accepts, sub.trans)
    requires sub.alphabet == alphabet && sub.start == 0
    requires IsMinimized(sub, parts, reps, min)
    ensures |parts| <= |sub.states|
    ensures forall w :: Over(w, alphabet) ==>
              ((var r := TableRun(TableOf(min.trans), min.start, w); r.Some? && r.value in min.accepts)
               <==> Accepted(sub.trans, sub.accepts, 0, w))
  {
    SubsetDfaFits(t, alphabet, records, start, closures, sub);
    MinimizedSize(sub, parts, reps, min);
    forall w | Over(w, alphabet)
      ensures (var r := TableRun(TableOf(min.trans), min.start, w); r.Some? && r.value in min.accepts)
              <==> Accepted(sub.trans, sub.accepts, 0, w)
    {
      TableRunIsRun(min.trans, min.start, w);
      SameLanguage(sub, parts, reps, min, w);
    }
  }

  class LexicalGenerator {
    /** `state_counter`, with the records of the states handed out. */
    const factory: StateFactory

    constructor ()
      ensures fresh(factory) && factory.Valid() && factory.counter == 0
    {
      factory := new StateFactory();
    }

    /** `_new_state`: a state numbered by the counter, which then grows by one. */
    method NewState(isAccepting: bool, tag: Option<string>) returns (s: State)
      requires factory.Valid()
      modifies factory
      ensures factory.Valid() && factory.counter == old(factory.counter) + 1
      ensures s == State(old(factory.counter), isAccepting, tag, None) && s.id !in old(factory.records)
      ensures factory.records == old(factory.records)[s.id := s]
    {
      var d := factory.NewState();
      if isAccepting {
        factory.SetAccepting(d.id, true);
      }
      if tag.Some? {
        factory.SetTag(d.id, tag.value);
      }
      s := d.(isAccepting := isAccepting, tag := tag);
    }

    /**
     * `generate`: `construct_simple(regex, token_tag)`, then the subset
     * construction, then minimization; returns the minimized table and accept set.
     */
    method Generate(regex: string, tokenTag: string)
      returns (table: Table, accepting: set<int>, ghost closures: seq<set<int>>, ghost sub: Automaton,
               ghost parts: seq<set<int>>, ghost reps: seq<int>, ghost min: Automaton)
      requires factory.Valid()
      modifies factory
      ensures factory.Valid() && factory.counter == old(factory.counter) + |regex| + 1
      ensures var s := old(factory.counter);
        IsSubsetDfa(Chain(s, regex, |regex|), Letters(regex, |regex|), factory.records, s, closures,
                    sub.states, sub.accepts, sub.trans)
        && sub.alphabet == Letters(regex, |regex|) && sub.start == 0
      ensures IsMinimized(sub, parts, reps, min)
      ensures table == TableOf(min.trans) && accepting == min.accepts
    {
      var nfa := ConstructSimple(factory, regex, tokenTag);
      var dfa;
      dfa, closures := Construct(nfa, factory.records);
      sub := Fields(dfa);
      var minDfa;
      minDfa, parts, reps := Minimize(dfa);
      min := Fields(minDfa);
      table := minDfa.GetTransitionTable();
      accepting := minDfa.accepts;
    }
  }
}
