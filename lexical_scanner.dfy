/**
 * The maximal-munch scanner (`Scanner.scan`) over a nested transition table
 * `{state: {char: next_state}}` and a map from accepting states to token
 * tags. At each position it skips one whitespace character, or follows the
 * table from state 0 as far as it goes and emits the longest prefix that
 * ended in an accepting state, or, when there is none, drops one character.
 */
module Scanner {
  import opened Wrappers
  import opened Dfa

  /** Python's `str.isspace`: the characters Unicode classes as white space or as separators of lines and paragraphs. */
  predicate IsSpace(c: char)
  {
    || ('\t' <= c <= '\r') || ('\U{1c}' <= c <= ' ') || c == '\U{85}' || c == '\U{a0}' || c == '\U{1680}'
    || ('\U{2000}' <= c <= '\U{200a}') || c == '\U{2028}' || c == '\U{2029}' || c == '\U{202f}' || c == '\U{205f}'
    || c == '\U{3000}'
  }

  /** The state reached by reading `w` through the table from `state`, or None when an entry is missing. */
  function TableRun(table: Table, state: int, w: string): Option<int>
    decreases |w|
  {
    if w == [] then Some(state)
    else if state in table && w[0] in table[state] then TableRun(table, table[state][w[0]], w[1..])
    else None
  }

  /** A nested table has an entry for `(s, c)` exactly when the flat transition map it was built from has one. */
  lemma TableEntry(t: Moves, s: int, c: char)
    ensures (s in TableOf(t) && c in TableOf(t)[s]) <==> (s, c) in t
    ensures (s, c) in t ==> TableOf(t)[s][c] == t[(s, c)]
  {
    TableHasEveryMove(t);
    if s in TableOf(t) && c in TableOf(t)[s] {
      var k :| k in t && k.0 == s && k.1 == c;
    }
  }

  /** Reading a word through the table of `get_transition_table` is reading it through the DFA's transitions. */
  lemma {:induction false} TableRunIsRun(t: Moves, s: int, w: string)
    ensures TableRun(TableOf(t), s, w) == Run(t, s, w)
    decreases |w|
  {
    if w != [] {
      TableEntry(t, s, w[0]);
      if (s, w[0]) in t {
        TableRunIsRun(t, t[(s, w[0])], w[1..]);
      }
    }
  }

  /** One more character read: the run goes on exactly when the table has an entry for it. */
  lemma {:induction false} TableRunSnoc(table: Table, state: int, w: string, c: char)
    ensures TableRun(table, state, w + [c]) ==
      match TableRun(table, state, w)
      case None => None
      case Some(q) => if q in table && c in table[q] then Some(table[q][c]) else None
    decreases |w|
  {
    if w == [] {
      assert w + [c] == [c];
      assert [c][1..] == [];
    } else {
      assert (w + [c])[1..] == w[1..] + [c];
      if state in table && w[0] in table[state] {
        TableRunSnoc(table, table[state][w[0]], w[1..], c);
      }
    }
  }

  /** The text `s[pos..e]` leads from `start` to a state of `acc`. */
  predicate AcceptsAt(table: Table, acc: map<int, string>, start: int, s: string, pos: int, e: int)
    requires 0 <= pos <= e <= |s|
  {
    var r := TableRun(table, start, s[pos..e]);
    r.Some? && r.value in acc
  }

  /**
   * `m` is the longest match at `pos`: when it is `Some((e, tag))`, `s[pos..e]`
   * is non-empty, ends in an accepting state with tag `tag`, and no longer
   * prefix ends in an accepting state; when it is None, no non-empty prefix does.
   */
  ghost predicate IsLongest(table: Table, acc: map<int, string>, start: int, s: string, pos: int,
                            m: Option<(int, string)>)
    requires 0 <= pos <= |s|
  {
    match m
    case None => forall e :: pos < e <= |s| ==> !AcceptsAt(table, acc, start, s, pos, e)
    case Some(end) =>
      && pos < end.0 <= |s| && AcceptsAt(table, acc, start, s, pos, end.0)
      && acc[TableRun(table, start, s[pos..end.0]).value] == end.1
      && forall e :: end.0 < e <= |s| ==> !AcceptsAt(table, acc, start, s, pos, e)
  }

  /** The inner loop of `scan`: from `state` at `cur`, with `best` the longest match found so far. */
  function Munch(table: Table, acc: map<int, string>, s: string, state: int, cur: int,
                 best: Option<(int, string)>): Option<(int, string)>
    requires 0 <= cur <= |s|
    decreases |s| - cur
  {
    if cur < |s| && state in table && s[cur] in table[state] then
      var next := table[state][s[cur]];
      Munch(table, acc, s, next, cur + 1, if next in acc then Some((cur + 1, acc[next])) else best)
    else best
  }

  /** The match attempt at `pos`, from state `start`. */
  function LongestMatch(table: Table, acc: map<int, string>, start: int, s: string, pos: int): Option<(int, string)>
    requires 0 <= pos <= |s|
  {
    Munch(table, acc, s, start, pos, None)
  }

  /** `best` is the longest match among the prefixes ending at most at `cur`. */
  ghost predicate BestSoFar(table: Table, acc: map<int, string>, start: int, s: string, pos: int, cur: int,
                            best: Option<(int, string)>)
    requires 0 <= pos <= cur <= |s|
  {
    match best
    case None => forall e :: pos < e <= cur ==> !AcceptsAt(table, acc, start, s, pos, e)
    case Some(end) =>
      && pos < end.0 <= cur && AcceptsAt(table, acc, start, s, pos, end.0)
      && acc[TableRun(table, start, s[pos..end.0]).value] == end.1
      && forall e :: end.0 < e <= cur ==> !AcceptsAt(table, acc, start, s, pos, e)
  }

  /** Once an entry is missing, no longer prefix has a run. */
  lemma {:induction false} RunStuck(table: Table, start: int, s: string, pos: int, cur: int, e: int)
    requires 0 <= pos <= cur < e <= |s|
    requires TableRun(table, start, s[pos..cur + 1]) == None
    ensures TableRun(table, start, s[pos..e]) == None
    decreases e - cur
  {
    if e > cur + 1 {
      RunStuck(table, start, s, pos, cur, e - 1);
      assert s[pos..e] == s[pos..e - 1] + [s[e - 1]];
      TableRunSnoc(table, start, s[pos..e - 1], s[e - 1]);
    }
  }

  lemma {:induction false} MunchFrom(table: Table, acc: map<int, string>, start: int, s: string, pos: int,
                                     state: int, cur: int, best: Option<(int, string)>)
    requires 0 <= pos <= cur <= |s| && TableRun(table, start, s[pos..cur]) == Some(state)
    requires BestSoFar(table, acc, start, s, pos, cur, best)
    ensures IsLongest(table, acc, start, s, pos, Munch(table, acc, s, state, cur, best))
    decreases |s| - cur
  {
    if cur < |s| {
      assert s[pos..cur + 1] == s[pos..cur] + [s[cur]];
      TableRunSnoc(table, start, s[pos..cur], s[cur]);
      if state in table && s[cur] in table[state] {
        var next := table[state][s[cur]];
        var best' := if next in acc then Some((cur + 1, acc[next])) else best;
        MunchFrom(table, acc, start, s, pos, next, cur + 1, best');
      } else {
        forall e | cur < e <= |s| ensures !AcceptsAt(table, acc, start, s, pos, e) {
          RunStuck(table, start, s, pos, cur, e);
        }
      }
    }
  }

  /**
   * Maximal munch: the match attempt at `pos` finds the longest non-empty
   * prefix that ends in an accepting state, with that state's tag, or
   * nothing when no non-empty prefix ends in one.
   */
  lemma MunchIsLongest(table: Table, acc: map<int, string>, start: int, s: string, pos: int)
    requires 0 <= pos <= |s|
    ensures IsLongest(table, acc, start, s, pos, LongestMatch(table, acc, start, s, pos))
  {
    assert s[pos..pos] == [];
    MunchFrom(table, acc, start, s, pos, start, pos, None);
  }

  /** A token: the tag and the source text `s[lo..hi]`. */
  datatype Span = Span(lo: int, hi: int, tag: string)

  /** The spans the outer loop of `scan` emits from `pos` on. */
  function Spans(table: Table, acc: map<int, string>, start: int, s: string, pos: int): seq<Span>
    requires 0 <= pos <= |s|
    decreases |s| - pos
  {
    if pos == |s| then []
    else if IsSpace(s[pos]) then Spans(table, acc, start, s, pos + 1)
    else
      var m := LongestMatch(table, acc, start, s, pos);
      if m.Some? && pos < m.value.0 <= |s| then [Span(pos, m.value.0, m.value.1)] + Spans(table, acc, start, s, m.value.0)
      else Spans(table, acc, start, s, pos + 1)
  }

  /** Every span lies within the source. */
  predicate SpansWithin(s: string, spans: seq<Span>)
  {
    forall i :: 0 <= i < |spans| ==> 0 <= spans[i].lo <= spans[i].hi <= |s|
  }

  /** The `(tag, text)` pairs of the spans. */
  function Texts(s: string, spans: seq<Span>): seq<(string, string)>
    requires SpansWithin(s, spans)
  {
    seq(|spans|, i requires 0 <= i < |spans| => (spans[i].tag, s[spans[i].lo..spans[i].hi]))
  }

  /** The non-empty pieces `sp` of the source start at or after `pos`, in order and without overlap, and none starts with white space. */
  predicate InOrder(s: string, pos: int, sp: seq<Span>)
  {
    && (forall i :: 0 <= i < |sp| ==> 0 <= pos <= sp[i].lo < sp[i].hi <= |s| && !IsSpace(s[sp[i].lo]))
    && (forall i :: 0 <= i < |sp| - 1 ==> sp[i].hi <= sp[i + 1].lo)
  }

  /**
   * Tokens are non-empty pieces of the source after `pos`, in source order and
   * without overlap; none starts with white space; each is the longest match
   * at its start.
   */
  lemma {:induction false} SpansWellFormed(table: Table, acc: map<int, string>, start: int, s: string, pos: int)
    requires 0 <= pos <= |s|
    ensures var sp := Spans(table, acc, start, s, pos);
      && InOrder(s, pos, sp)
      && (forall i :: 0 <= i < |sp| ==>
            LongestMatch(table, acc, start, s, sp[i].lo) == Some((sp[i].hi, sp[i].tag)))
    decreases |s| - pos
  {
    var sp := Spans(table, acc, start, s, pos);
    if pos < |s| {
      var m := LongestMatch(table, acc, start, s, pos);
      if IsSpace(s[pos]) || !(m.Some? && pos < m.value.0 <= |s|) {
        assert sp == Spans(table, acc, start, s, pos + 1);
        SpansWellFormed(table, acc, start, s, pos + 1);
      } else {
        var rest := Spans(table, acc, start, s, m.value.0);
        assert sp == [Span(pos, m.value.0, m.value.1)] + rest;
        SpansWellFormed(table, acc, start, s, m.value.0);
      }
    }
  }

  /** The spans from a position lie within the source. */
  lemma SpansInSource(table: Table, acc: map<int, string>, start: int, s: string, pos: int)
    requires 0 <= pos <= |s|
    ensures SpansWithin(s, Spans(table, acc, start, s, pos))
  {
    SpansWellFormed(table, acc, start, s, pos);
  }

  /** No span covers position `p`. */
  predicate Uncovered(sp: seq<Span>, p: int)
  {
    forall i :: 0 <= i < |sp| ==> !(sp[i].lo <= p < sp[i].hi)
  }

  /** Every position after `pos` that no token covers holds white space or starts no match: it was skipped. */
  lemma {:induction false} SpansSkipOnlyUnmatched(table: Table, acc: map<int, string>, start: int, s: string,
                                                  pos: int, p: int)
    requires 0 <= pos <= p < |s|
    requires Uncovered(Spans(table, acc, start, s, pos), p)
    ensures IsSpace(s[p]) || LongestMatch(table, acc, start, s, p).None?
    decreases |s| - pos
  {
    var sp := Spans(table, acc, start, s, pos);
    var m := LongestMatch(table, acc, start, s, pos);
    if IsSpace(s[pos]) || !(m.Some? && pos < m.value.0 <= |s|) {
      if p > pos {
        assert sp == Spans(table, acc, start, s, pos + 1);
        SpansSkipOnlyUnmatched(table, acc, start, s, pos + 1, p);
      } else if !IsSpace(s[pos]) {
        MunchIsLongest(table, acc, start, s, pos);
      }
    } else {
      var rest := Spans(table, acc, start, s, m.value.0);
      assert sp == [Span(pos, m.value.0, m.value.1)] + rest;
      assert !(sp[0].lo <= p < sp[0].hi);
      assert Uncovered(rest, p) by {
        forall i | 0 <= i < |rest| ensures !(rest[i].lo <= p < rest[i].hi) {
          assert rest[i] == sp[i + 1];
        }
      }
      SpansSkipOnlyUnmatched(table, acc, start, s, m.value.0, p);
    }
  }

  class Scanner {
    var transitionTable: Table
    var acceptingMap: map<int, string>

    constructor (transitionTable: Table, acceptingMap: map<int, string>)
      ensures this.transitionTable == transitionTable && this.acceptingMap == acceptingMap
    {
      this.transitionTable := transitionTable;
      this.acceptingMap := acceptingMap;
    }

    /** `scan`: every match attempt starts from state 0. */
    method Scan(source: string) returns (tokens: seq<(string, string)>)
      ensures var sp := Spans(transitionTable, acceptingMap, 0, source, 0);
        SpansWithin(source, sp) && tokens == Texts(source, sp)
    {
      var table, acc := transitionTable, acceptingMap;
      tokens := [];
      var pos := 0;
      var length := |source|;
      SpansInSource(table, acc, 0, source, 0);
      while pos < length
        invariant 0 <= pos <= length
        invariant SpansWithin(source, Spans(table, acc, 0, source, pos))
        invariant tokens + Texts(source, Spans(table, acc, 0, source, pos)) == Texts(source, Spans(table, acc, 0, source, 0))
        decreases length - pos
      {
        if IsSpace(source[pos]) {
          SpansInSource(table, acc, 0, source, pos + 1);
          pos := pos + 1;
          continue;
        }
        var longestText: Option<string> := None;
        var longestTag: Option<string> := None;
        var longestEnd := -1;
        var state := 0;
        var cur := pos;
        while cur < length
          invariant pos <= cur <= length
          invariant longestText.Some? ==> longestTag.Some? && pos < longestEnd <= cur && longestText.value == source[pos..longestEnd]
          invariant Munch(table, acc, source, state, cur, Best(longestText, longestTag, longestEnd))
                    == LongestMatch(table, acc, 0, source, pos)
          decreases length - cur
        {
          var c := source[cur];
          if state in table && c in table[state] {
            state := table[state][c];
            cur := cur + 1;
            if state in acc {
              longestText := Some(source[pos..cur]);
              longestTag := Some(acc[state]);
              longestEnd := cur;
            }
          } else {
            break;
          }
        }
        ghost var m := LongestMatch(table, acc, 0, source, pos);
        assert m == Best(longestText, longestTag, longestEnd);
        if longestText.Some? && longestText.value != [] {
          SpansInSource(table, acc, 0, source, longestEnd);
          ScanStep(source, Spans(table, acc, 0, source, pos), longestTag.value, pos, longestEnd,
                   Spans(table, acc, 0, source, longestEnd));
          tokens := tokens + [(longestTag.value, longestText.value)];
          pos := longestEnd;
        } else {
          SpansInSource(table, acc, 0, source, pos + 1);
          pos := pos + 1;
        }
      }
    }
  }

  /** The longest match so far, read from the loop variables of `scan`. */
  function Best(text: Option<string>, tag: Option<string>, end: int): Option<(int, string)>
  {
    if text.Some? && tag.Some? then Some((end, tag.value)) else None
  }

  lemma ScanStep(s: string, sp: seq<Span>, tag: string, lo: int, hi: int, rest: seq<Span>)
    requires 0 <= lo <= hi <= |s| && SpansWithin(s, rest) && sp == [Span(lo, hi, tag)] + rest
    ensures SpansWithin(s, sp) && Texts(s, sp) == [(tag, s[lo..hi])] + Texts(s, rest)
  {
  }
}
