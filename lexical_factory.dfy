/**
 * The state counter of `LexicalGenerator` (`_new_state`), together with the
 * store of the State records it has handed out. Python's State objects are
 * shared by reference: a fragment constructor that flips `is_accepting` or
 * sets `tag` changes the record every holder sees. Here every holder keeps
 * the id, and the current attributes of id `i` are `records[i]`.
 */
module StateFactory {
  import opened Wrappers
  import opened LexState

  class StateFactory {
    var counter: nat
    var records: map<int, State>

    /** The ids handed out so far are exactly 0 .. counter-1. */
    ghost predicate Valid()
      reads this
    {
      && (forall id :: id in records <==> 0 <= id < counter)
      && (forall id :: id in records ==> records[id].id == id)
    }

    constructor ()
      ensures Valid() && counter == 0 && records == map[]
    {
      counter := 0;
      records := map[];
    }

    /** `_new_state`: the id is the counter before the call; the counter then grows by one. */
    method NewState() returns (s: State)
      requires Valid()
      modifies this
      ensures Valid()
      ensures s == LexState.NewState(old(counter)) && s.id !in old(records)
      ensures counter == old(counter) + 1 && records == old(records)[s.id := s]
    {
      s := LexState.NewState(counter);
      records := records[counter := s];
      counter := counter + 1;
    }

    /** `state.is_accepting = b` on a state handed out earlier. */
    method SetAccepting(id: int, b: bool)
      requires Valid() && id in records
      modifies this
      ensures Valid() && counter == old(counter)
      ensures records == old(records)[id := old(records)[id].(isAccepting := b)]
    {
      records := records[id := records[id].(isAccepting := b)];
    }

    /** `state.tag = tag` on a state handed out earlier. */
    method SetTag(id: int, tag: string)
      requires Valid() && id in records
      modifies this
      ensures Valid() && counter == old(counter)
      ensures records == old(records)[id := old(records)[id].(tag := Some(tag))]
    {
      records := records[id := records[id].(tag := Some(tag))];
    }
  }

  /** Whether the record of `id` currently says "accepting". */
  predicate IsAccepting(records: map<int, State>, id: int)
  {
    id in records && records[id].isAccepting
  }

  /** `records` after `is_accepting = False` on every state of `ids`. */
  function Demote(records: map<int, State>, ids: set<int>): (r: map<int, State>)
    ensures r.Keys == records.Keys
  {
    map id | id in records :: if id in ids then records[id].(isAccepting := false) else records[id]
  }

  /** Demoted states are no longer accepting; every other record, and every id and tag, is kept. */
  lemma DemoteSpec(records: map<int, State>, ids: set<int>)
    ensures var r := Demote(records, ids);
      && (forall id :: id in ids ==> !IsAccepting(r, id))
      && (forall id :: id in records && id !in ids ==> r[id] == records[id])
      && (forall id :: id in records ==> r[id].id == records[id].id && r[id].tag == records[id].tag)
  {
  }

  /** `records` after `tag = t` on every state of `ids`. */
  function Retag(records: map<int, State>, ids: set<int>, t: string): (r: map<int, State>)
    ensures r.Keys == records.Keys
  {
    map id | id in records :: if id in ids then records[id].(tag := Some(t)) else records[id]
  }

  /** Retagged states carry the new tag; every other record, and every id and accepting flag, is kept. */
  lemma RetagSpec(records: map<int, State>, ids: set<int>, t: string)
    ensures var r := Retag(records, ids, t);
      && (forall id :: id in ids && id in records ==> r[id].tag == Some(t))
      && (forall id :: id in records && id !in ids ==> r[id] == records[id])
      && (forall id :: id in records ==> r[id].id == records[id].id && r[id].isAccepting == records[id].isAccepting)
  {
  }
}
