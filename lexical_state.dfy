/**
 * The automaton state record of the lexer generator. A state is identified by
 * its integer id alone: its accepting flag and its token tag are changed after
 * it has been created, while it already sits in sets and transition keys.
 */
module LexState {
  import opened Wrappers

  /** `priority` is Python's infinite default when `None` ("no priority"). */
  datatype State = State(id: int, isAccepting: bool, tag: Option<string>, priority: Option<int>)

  /** What `__eq__` may be handed: a State, or any other object. */
  datatype Operand = AState(state: State) | NotAState

  /** A state with the record's defaults: not accepting, no tag, no priority. */
  function NewState(id: int): (s: State)
    ensures s.id == id && !s.isAccepting && s.tag.None? && s.priority.None?
  {
    State(id, false, None, None)
  }

  /** `__eq__`: the other operand is a State with the same id. */
  predicate Equals(s: State, other: Operand)
  {
    other.AState? && other.state.id == s.id
  }

  /** `__hash__`: the hash of the id. */
  function Hash(s: State): int
  {
    s.id
  }

  lemma EqualsIgnoresAttributes(s: State, t: State)
    ensures Equals(s, AState(t)) <==> s.id == t.id
    ensures !Equals(s, NotAState)
  {
  }

  /** Equal states hash alike, so a state whose flags or tag change stays findable in a hashed set. */
  lemma MutatedStateStaysFindable(s: State, accepting: bool, tag: Option<string>)
    ensures var t := s.(isAccepting := accepting, tag := tag);
      Equals(s, AState(t)) && Equals(t, AState(s)) && Hash(t) == Hash(s)
  {
  }
}
