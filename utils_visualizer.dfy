/**
 * Edge labels of the automaton drawings (`GraphvizVisualizer._format_edge_label`
 * in `utils/visualizer.py`): the characters of a transition, with None
 * standing for `ε`, are summarised as `letter`, `digit`, or runs of
 * consecutive code points.
 */
module Visualizer {
  import opened Wrappers
  import Sorting

  const Letters: string := "abcdefghijklmnopqrstuvwxyzABCDEFGHIJKLMNOPQRSTUVWXYZ"
  const Digits: string := "0123456789"
  const EpsilonLabel: string := "ε"

  /** The characters of the list in order, the None entries dropped. */
  function Present(chars: seq<Option<char>>): (r: seq<char>)
    ensures |r| <= |chars| && forall c :: c in r <==> Some(c) in chars
  {
    if chars == [] then []
    else
      var rest := Present(chars[..|chars| - 1]);
      assert chars == chars[..|chars| - 1] + [chars[|chars| - 1]];
      match chars[|chars| - 1]
      case Some(c) => rest + [c]
      case None => rest
  }

  /** Every character of `pool` occurs in `xs`. */
  predicate HasAll(xs: seq<char>, pool: string)
  {
    forall c :: c in pool ==> c in xs
  }

  /**
   * The maximal runs of consecutive code points of `xs`, left to right, as
   * (first, last) pairs: each character extends the current run when it is
   * one past the run's last character, and starts a new run otherwise.
   */
  function Runs(xs: seq<char>): (r: seq<(char, char)>)
    ensures |r| <= |xs| && (xs == [] <==> r == [])
    ensures forall j :: 0 <= j < |r| ==> r[j].0 <= r[j].1
    ensures xs != [] ==> r[|r| - 1].1 == xs[|xs| - 1]
  {
    if xs == [] then []
    else
      var rs := Runs(xs[..|xs| - 1]);
      var c := xs[|xs| - 1];
      if rs != [] && c as int == rs[|rs| - 1].1 as int + 1 then rs[..|rs| - 1] + [(rs[|rs| - 1].0, c)]
      else rs + [(c, c)]
  }

  /**
   * The code points from `a` to `b`: what a run `(a, b)` stands for. Only
   * `RunsCover` uses it, to say that the runs lose and add no character.
   */
  function Span(a: int, b: int): (r: seq<int>)
    decreases b - a
  {
    if b < a then [] else Span(a, b - 1) + [b]
  }

  /**
   * The code points each run stands for, one run after the other: the
   * characters a label of these runs describes. Only `RunsCover` uses it.
   */
  function Covered(rs: seq<(char, char)>): seq<int>
  {
    if rs == [] then [] else Covered(rs[..|rs| - 1]) + Span(rs[|rs| - 1].0 as int, rs[|rs| - 1].1 as int)
  }

  /** The code points of a string. */
  function Codes(xs: seq<char>): (r: seq<int>)
    ensures |r| == |xs| && forall i :: 0 <= i < |xs| ==> r[i] == xs[i] as int
  {
    if xs == [] then [] else Codes(xs[..|xs| - 1]) + [xs[|xs| - 1] as int]
  }

  /** The runs cover the characters exactly: spelled out one after the other they give back `xs`. */
  lemma {:induction false} RunsCover(xs: seq<char>)
    ensures Covered(Runs(xs)) == Codes(xs)
  {
    if xs != [] {
      var init := xs[..|xs| - 1];
      var rs := Runs(init);
      var c := xs[|xs| - 1];
      RunsCover(init);
      if rs != [] && c as int == rs[|rs| - 1].1 as int + 1 {
        var last := rs[|rs| - 1];
        assert rs == rs[..|rs| - 1] + [last];
        assert Span(last.0 as int, c as int) == Span(last.0 as int, last.1 as int) + [c as int];
        assert (rs[..|rs| - 1] + [(last.0, c)])[..|rs| - 1] == rs[..|rs| - 1];
      } else {
        assert (rs + [(c, c)])[..|rs|] == rs;
        assert Span(c as int, c as int) == [c as int] by { assert Span(c as int, c as int - 1) == []; }
      }
    }
  }

  /** Run `j` does not begin one code point after the end of run `j - 1`. */
  predicate Apart(rs: seq<(char, char)>, j: int)
    requires 0 < j < |rs|
  {
    rs[j].0 as int != rs[j - 1].1 as int + 1
  }

  /** The runs are maximal: no run begins one code point after the end of the run before it. */
  lemma {:induction false} RunsMaximal(xs: seq<char>)
    ensures forall j :: 0 < j < |Runs(xs)| ==> Apart(Runs(xs), j)
  {
    if xs != [] {
      var init := xs[..|xs| - 1];
      var rs, r, c := Runs(init), Runs(xs), xs[|xs| - 1];
      RunsMaximal(init);
      if rs != [] && c as int == rs[|rs| - 1].1 as int + 1 {
        assert r == rs[..|rs| - 1] + [(rs[|rs| - 1].0, c)];
        forall j | 0 < j < |r| ensures Apart(r, j) {
          assert r[j].0 == rs[j].0 && r[j - 1] == rs[j - 1];
          assert Apart(rs, j);
        }
      } else {
        assert r == rs + [(c, c)];
        forall j | 0 < j < |r| ensures Apart(r, j) {
          if j < |rs| {
            assert r[j] == rs[j] && r[j - 1] == rs[j - 1];
            assert Apart(rs, j);
          } else {
            assert r[j] == (c, c) && r[j - 1] == rs[|rs| - 1];
          }
        }
      }
    }
  }

  /**
   * `a`, `a,b` or `a-c`, by the length of the run: one character for a
   * single code point, else the first and the last character around `,` when
   * they are neighbours and around `-` when there are code points between them.
   */
  function RunLabel(run: (char, char)): (r: string)
    ensures |r| >= 1 && r[0] == run.0 && (|r| == 1 <==> run.0 == run.1)
    ensures run.0 != run.1 ==> |r| == 3 && r[2] == run.1 && r[1] == (if run.1 as int == run.0 as int + 1 then ',' else '-')
  {
    if run.0 == run.1 then [run.0]
    else if run.1 as int - run.0 as int == 1 then [run.0, ',', run.1]
    else [run.0, '-', run.1]
  }

  function Labels(rs: seq<(char, char)>): (r: seq<string>)
    ensures |r| == |rs| && forall j :: 0 <= j < |rs| ==> r[j] == RunLabel(rs[j])
  {
    if rs == [] then [] else Labels(rs[..|rs| - 1]) + [RunLabel(rs[|rs| - 1])]
  }

  /**
   * Python's `sep.join(xs)`: the pieces in order with one separator between
   * neighbours. `JoinWithEnds` and `JoinWithFront` state what it holds.
   */
  function JoinWith(xs: seq<string>, sep: string): string
  {
    if xs == [] then ""
    else if |xs| == 1 then xs[0]
    else JoinWith(xs[..|xs| - 1], sep) + sep + xs[|xs| - 1]
  }

  /**
   * Python's `s.replace('"', '\\"')`: each double quote gets a backslash in
   * front, so the result is longer by the number of quotes, does not begin
   * with a quote, and has a backslash before each of its quotes.
   */
  function Escape(s: string): (r: string)
    ensures |r| == |s| + multiset(s)['"']
    ensures r != [] ==> r[0] != '"'
    ensures forall i :: 0 <= i < |r| && r[i] == '"' ==> i > 0 && r[i - 1] == '\\'
  {
    if s == [] then ""
    else
      var rest := Escape(s[1..]);
      var head := if s[0] == '"' then ['\\', '"'] else [s[0]];
      EscapedJoin(head, rest);
      assert multiset(s) == multiset([s[0]]) + multiset(s[1..]) by { assert s == [s[0]] + s[1..]; }
      head + rest
  }

  /** A piece with a backslash before each quote, followed by a text that also has one and does not begin with a quote. */
  lemma EscapedJoin(head: string, rest: string)
    requires head != [] && head[0] != '"' && forall i :: 0 <= i < |head| && head[i] == '"' ==> i > 0 && head[i - 1] == '\\'
    requires (rest != [] ==> rest[0] != '"') && forall i :: 0 <= i < |rest| && rest[i] == '"' ==> i > 0 && rest[i - 1] == '\\'
    ensures forall i :: 0 <= i < |head + rest| && (head + rest)[i] == '"' ==> i > 0 && (head + rest)[i - 1] == '\\'
  {
    var r := head + rest;
    forall i | 0 <= i < |r| && r[i] == '"' ensures i > 0 && r[i - 1] == '\\' {
      if i >= |head| {
        assert r[i] == rest[i - |head|];
        assert i - |head| > 0;
        assert r[i - 1] == rest[i - |head| - 1];
      } else {
        assert r[i] == head[i] && r[i - 1] == head[i - 1];
      }
    }
  }

  /** Reading an escaped text back: a backslash followed by a double quote stands for the quote. */
  function Unescape(r: string): string
  {
    if r == [] then ""
    else if |r| >= 2 && r[0] == '\\' && r[1] == '"' then ['"'] + Unescape(r[2..])
    else [r[0]] + Unescape(r[1..])
  }

  /** A quote escapes to backslash and quote; any other character stays as it is. */
  lemma EscapeChar(c: char)
    ensures Escape([c]) == (if c == '"' then ['\\', '"'] else [c])
  {
    assert [c][1..] == [];
  }

  /** Escaping a concatenation escapes each part: with `EscapeChar` this fixes the text character by character. */
  lemma {:induction false} EscapeSplit(s: string, t: string)
    ensures Escape(s + t) == Escape(s) + Escape(t)
  {
    if s == [] {
      assert s + t == t;
    } else {
      var rest := s[1..];
      var head := if s[0] == '"' then ['\\', '"'] else [s[0]];
      assert s == [s[0]] + rest;
      assert s + t == [s[0]] + (rest + t);
      calc {
        Escape(s + t);
        { EscapeFront(s[0], rest + t); }
        head + Escape(rest + t);
        { EscapeSplit(rest, t); }
        head + (Escape(rest) + Escape(t));
        (head + Escape(rest)) + Escape(t);
        { EscapeFront(s[0], rest); }
        Escape(s) + Escape(t);
      }
    }
  }

  /** Escaping a text escapes its first character, then the rest. */
  lemma EscapeFront(c: char, rest: string)
    ensures Escape([c] + rest) == (if c == '"' then ['\\', '"'] else [c]) + Escape(rest)
  {
    var u := [c] + rest;
    assert u[0] == c && u[1..] == rest;
  }

  /** Escaping loses nothing: reading the escaped text back gives the original. */
  lemma {:induction false} EscapeRoundTrip(s: string)
    ensures Unescape(Escape(s)) == s
  {
    if s != [] {
      EscapeRoundTrip(s[1..]);
      var rest := Escape(s[1..]);
      if s[0] == '"' {
        assert (['\\', '"'] + rest)[2..] == rest;
      } else {
        assert ([s[0]] + rest)[1..] == rest;
      }
    }
  }

  /** A join begins with the first piece and ends with the last. */
  lemma {:induction false} JoinWithEnds(xs: seq<string>, sep: string)
    requires xs != []
    ensures xs[0] <= JoinWith(xs, sep)
    ensures |xs[|xs| - 1]| <= |JoinWith(xs, sep)| && JoinWith(xs, sep)[|JoinWith(xs, sep)| - |xs[|xs| - 1]|..] == xs[|xs| - 1]
    decreases |xs|
  {
    if |xs| > 1 {
      var init := xs[..|xs| - 1];
      JoinWithEnds(init, sep);
      assert init[0] == xs[0];
    }
  }

  /** Joining one more piece in front adds it and a separator before the rest. */
  lemma {:induction false} JoinWithFront(x: string, xs: seq<string>, sep: string)
    requires xs != []
    ensures JoinWith([x] + xs, sep) == x + sep + JoinWith(xs, sep)
    decreases |xs|
  {
    var ys := [x] + xs;
    var last := xs[|xs| - 1];
    assert ys[|ys| - 1] == last;
    if |xs| > 1 {
      var init := xs[..|xs| - 1];
      assert ys[..|ys| - 1] == [x] + init;
      JoinWithFront(x, init, sep);
      assert JoinWith(ys, sep) == (x + sep + JoinWith(init, sep)) + sep + last;
      assert JoinWith(xs, sep) == JoinWith(init, sep) + sep + last;
    } else {
      assert ys[..|ys| - 1] == [x];
      assert JoinWith(xs, sep) == last;
    }
  }

  /** Sorting keeps the characters, so it keeps which of them are all present. */
  lemma SortedHasAll(xs: seq<char>, pool: string)
    ensures HasAll(Sorting.Sort(xs), pool) <==> HasAll(xs, pool)
  {
    var sorted := Sorting.Sort(xs);
    forall c ensures c in sorted <==> c in xs {
      assert c in sorted <==> c in multiset(sorted);
      assert c in xs <==> c in multiset(xs);
    }
  }

  /** `, ε` after a class name when the list also holds None. */
  function EpsilonSuffix(hasEpsilon: bool): string
  {
    if hasEpsilon then ", " + EpsilonLabel else ""
  }

  /**
   * `_format_edge_label`. An empty list gives the empty label and a list of
   * None only gives `ε`. Otherwise, with the characters sorted: if all the
   * ASCII letters are there the label is `letter`, else if all the digits are
   * there it is `digit` (each followed by `, ε` when None is in the list);
   * else it is the runs of consecutive code points joined by commas, after
   * `ε,` when None is in the list, with double quotes escaped.
   */
  method FormatEdgeLabel(chars: seq<Option<char>>) returns (edgeLabel: string)
    ensures chars == [] ==> edgeLabel == ""
    ensures chars != [] && Present(chars) == [] ==> edgeLabel == EpsilonLabel
    ensures Present(chars) != [] && HasAll(Present(chars), Letters) ==> edgeLabel == "letter" + EpsilonSuffix(None in chars)
    ensures Present(chars) != [] && !HasAll(Present(chars), Letters) && HasAll(Present(chars), Digits) ==>
              edgeLabel == "digit" + EpsilonSuffix(None in chars)
    ensures Present(chars) != [] && !HasAll(Present(chars), Letters) && !HasAll(Present(chars), Digits) ==>
              edgeLabel == Escape((if None in chars then EpsilonLabel + "," else "")
                              + JoinWith(Labels(Runs(Sorting.Sort(Present(chars)))), ","))
  {
    if chars == [] {
      return "";
    }
    var validChars := Present(chars);
    var hasEpsilon := None in chars;
    if validChars == [] {
      assert chars[0] == None by { assert chars[0] !in chars || chars[0].None?; }
      return if hasEpsilon then EpsilonLabel else "";
    }
    var sorted := Sorting.Sort(validChars);
    SortedHasAll(validChars, Letters);
    SortedHasAll(validChars, Digits);
    if HasAll(sorted, Letters) {
      return "letter" + EpsilonSuffix(hasEpsilon);
    }
    if HasAll(sorted, Digits) {
      return "digit" + EpsilonSuffix(hasEpsilon);
    }
    var ranges := MergeRuns(sorted);
    var joined := JoinWith(ranges, ",");
    JoinWithEnds(ranges, ",");
    var text := joined;
    if hasEpsilon {
      text := if joined != "" then EpsilonLabel + "," + joined else EpsilonLabel;
    }
    assert joined != "" && text == (if hasEpsilon then EpsilonLabel + "," else "") + joined;
    edgeLabel := Escape(text);
  }

  /** One more character either extends the last run or opens a new one. */
  lemma RunsStep(xs: seq<char>, i: nat, closed: seq<(char, char)>, start: char, end: char)
    requires 1 <= i < |xs| && Runs(xs[..i]) == closed + [(start, end)]
    ensures xs[i] as int == end as int + 1 ==> Runs(xs[..i + 1]) == closed + [(start, xs[i])]
    ensures xs[i] as int != end as int + 1 ==> Runs(xs[..i + 1]) == (closed + [(start, end)]) + [(xs[i], xs[i])]
  {
    assert xs[..i + 1][..i] == xs[..i];
    assert (closed + [(start, end)])[..|closed|] == closed;
  }

  /** The labels of one more run are the earlier labels and that run's label. */
  lemma LabelsAppend(rs: seq<(char, char)>, run: (char, char))
    ensures Labels(rs + [run]) == Labels(rs) + [RunLabel(run)]
  {
    assert (rs + [run])[..|rs|] == rs;
  }

  /** The range-merging loop of `_format_edge_label`: the label of each maximal run, in order. */
  method MergeRuns(sorted: seq<char>) returns (ranges: seq<string>)
    requires sorted != []
    ensures ranges == Labels(Runs(sorted)) && ranges != [] && ranges[|ranges| - 1] != ""
  {
    ranges := [];
    ghost var closed: seq<(char, char)> := [];
    var start, end := sorted[0], sorted[0];
    assert sorted[..1] == [sorted[0]];
    var i := 1;
    while i < |sorted|
      invariant 1 <= i <= |sorted|
      invariant Runs(sorted[..i]) == closed + [(start, end)] && ranges == Labels(closed)
    {
      var c := sorted[i];
      RunsStep(sorted, i, closed, start, end);
      if c as int == end as int + 1 {
        end := c;
      } else {
        LabelsAppend(closed, (start, end));
        ranges := ranges + [RunLabel((start, end))];
        closed := closed + [(start, end)];
        start, end := c, c;
      }
      i := i + 1;
    }
    assert sorted[..i] == sorted;
    LabelsAppend(closed, (start, end));
    ranges := ranges + [RunLabel((start, end))];
  }
}
