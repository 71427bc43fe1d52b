/**
 * DFA minimization (`DFAMinimizer.minimize`) by partition refinement. The
 * groups start as [accepting states, the other states]; each pass splits
 * every group by the signature of its states (for each symbol of the sorted
 * alphabet, the index of the group holding the target, or -1), until a pass
 * splits nothing. Each final group becomes one state of the new DFA.
 */
module Minimization {
  import opened Wrappers
  import opened FiniteSets
  import opened Sorting
  import opened Dfa

  // ---------------------------------------------------------------------------
  // Groups of states.

  /** Every state that belongs to some group. */
  function Flat(parts: seq<set<int>>): set<int>
  {
    if parts == [] then {} else parts[0] + Flat(parts[1..])
  }

  predicate NonEmpty(parts: seq<set<int>>)
  {
    forall i :: 0 <= i < |parts| ==> parts[i] != {}
  }

  predicate Disjoint(parts: seq<set<int>>)
  {
    forall i, j :: 0 <= i < j < |parts| ==> parts[i] !! parts[j]
  }

  /** `parts` splits `u` into non-empty, pairwise disjoint groups. */
  predicate IsPartition(parts: seq<set<int>>, u: set<int>)
  {
    NonEmpty(parts) && Disjoint(parts) && Flat(parts) == u
  }

  /** Each group is entirely accepting or entirely non-accepting. */
  predicate Homogeneous(parts: seq<set<int>>, accepts: set<int>)
  {
    forall i :: 0 <= i < |parts| ==> parts[i] <= accepts || parts[i] !! accepts
  }

  /** `get_group_id`: the index of the first group holding `s`, or -1 when no group does. */
  function GroupIndex(parts: seq<set<int>>, s: int): (r: int)
    ensures -1 <= r < |parts|
    ensures r >= 0 ==> s in parts[r] && forall j :: 0 <= j < r ==> s !in parts[j]
    ensures r == -1 <==> forall j :: 0 <= j < |parts| ==> s !in parts[j]
  {
    if parts == [] then -1
    else if s in parts[0] then 0
    else
      var r := GroupIndex(parts[1..], s);
      assert forall j :: 1 <= j < |parts| ==> parts[j] == parts[1..][j - 1];
      if r == -1 then -1 else r + 1
  }

  /** A state belongs to some group exactly when `get_group_id` finds one. */
  lemma {:induction false} FlatIndex(parts: seq<set<int>>, s: int)
    ensures s in Flat(parts) <==> GroupIndex(parts, s) >= 0
  {
    if parts != [] {
      FlatIndex(parts[1..], s);
      if s !in parts[0] && GroupIndex(parts[1..], s) >= 0 {
        assert s in parts[1..][GroupIndex(parts[1..], s)];
      }
    }
  }

  /** With disjoint groups, the group of a member of group `i` is `i`. */
  lemma GroupOfMember(parts: seq<set<int>>, i: int, s: int)
    requires Disjoint(parts) && 0 <= i < |parts| && s in parts[i]
    ensures GroupIndex(parts, s) == i
  {
  }

  lemma {:induction false} FlatAppend(a: seq<set<int>>, b: seq<set<int>>)
    ensures Flat(a + b) == Flat(a) + Flat(b)
  {
    if a != [] {
      assert (a + b)[1..] == a[1..] + b;
      FlatAppend(a[1..], b);
    } else {
      assert a + b == b;
    }
  }

  /** Appending a group of states that no earlier group holds keeps the groups disjoint. */
  lemma DisjointAppend(a: seq<set<int>>, b: seq<set<int>>)
    requires Disjoint(a) && Disjoint(b) && Flat(a) !! Flat(b)
    ensures Disjoint(a + b)
  {
    forall i, j | 0 <= i < j < |a + b| ensures (a + b)[i] !! (a + b)[j] {
      if j >= |a| && i < |a| {
        forall x | x in a[i] ensures x !in b[j - |a|] {
          FlatIndex(a, x);
          GroupOfMember(a, i, x);
          if x in b[j - |a|] {
            GroupOfMember(b, j - |a|, x);
            FlatIndex(b, x);
          }
        }
      }
    }
  }

  /** Non-empty disjoint groups are no more numerous than the states they hold. */
  lemma {:induction false} PartitionSize(parts: seq<set<int>>)
    requires NonEmpty(parts) && Disjoint(parts)
    ensures |parts| <= |Flat(parts)|
  {
    if parts != [] {
      PartitionSize(parts[1..]);
      assert parts[0] !! Flat(parts[1..]) by {
        forall x | x in parts[0] ensures x !in Flat(parts[1..]) {
          FlatIndex(parts[1..], x);
        }
      }
      assert |Flat(parts)| == |parts[0]| + |Flat(parts[1..])|;
    }
  }

  /** `get_group_id`: scan the groups in order and stop at the first that holds `s`. */
  method GetGroupId(parts: seq<set<int>>, s: int) returns (r: int)
    ensures r == GroupIndex(parts, s)
  {
    var i := 0;
    while i < |parts|
      invariant 0 <= i <= |parts|
      invariant forall j :: 0 <= j < i ==> s !in parts[j]
    {
      if s in parts[i] {
        return i;
      }
      i := i + 1;
    }
    return -1;
  }

  // ---------------------------------------------------------------------------
  // Signatures.

  /** `dfa.transitions.get((s, c), -1)`. */
  function TargetOr(trans: Moves, s: int, c: char): int
  {
    if (s, c) in trans then trans[(s, c)] else -1
  }

  /** One signature entry: -1 when the lookup gives -1, otherwise the group of the target. */
  function Entry(trans: Moves, parts: seq<set<int>>, s: int, c: char): int
  {
    var t := TargetOr(trans, s, c);
    if t == -1 then -1 else GroupIndex(parts, t)
  }

  /** The signature of `s`: one entry per symbol of `symbols`, in that order. */
  function Sig(trans: Moves, parts: seq<set<int>>, symbols: seq<char>, s: int): seq<int>
  {
    seq(|symbols|, k requires 0 <= k < |symbols| => Entry(trans, parts, s, symbols[k]))
  }

  /** The loop that builds the signature of one state. */
  method Signature(trans: Moves, parts: seq<set<int>>, symbols: seq<char>, s: int) returns (sig: seq<int>)
    ensures sig == Sig(trans, parts, symbols, s)
  {
    sig := [];
    for k := 0 to |symbols|
      invariant |sig| == k
      invariant forall j :: 0 <= j < k ==> sig[j] == Entry(trans, parts, s, symbols[j])
    {
      var next := if (s, symbols[k]) in trans then trans[(s, symbols[k])] else -1;
      var id := -1;
      if next != -1 {
        id := GetGroupId(parts, next);
      }
      sig := sig + [id];
    }
  }

  /** All states of `g` have the same signature. */
  ghost predicate SameSig(trans: Moves, parts: seq<set<int>>, symbols: seq<char>, g: set<int>)
  {
    forall x, y :: x in g && y in g ==> Sig(trans, parts, symbols, x) == Sig(trans, parts, symbols, y)
  }

  /**
   * `classes` are the signature classes of `group`: non-empty, disjoint,
   * together exactly `group`, one signature per class and a different one
   * for each class.
   */
  ghost predicate SplitBySig(trans: Moves, parts: seq<set<int>>, symbols: seq<char>, group: set<int>,
                             classes: seq<set<int>>)
  {
    && NonEmpty(classes) && Disjoint(classes) && Flat(classes) == group
    && (forall i :: 0 <= i < |classes| ==> SameSig(trans, parts, symbols, classes[i]))
    && (forall i, j, x, y :: 0 <= i < j < |classes| && x in classes[i] && y in classes[j] ==>
          Sig(trans, parts, symbols, x) != Sig(trans, parts, symbols, y))
  }

  /**
   * The `signature_map` of one group after the states of `done`: its keys in
   * insertion order, each mapped to the states of `done` with that signature.
   */
  ghost predicate SigTable(trans: Moves, parts: seq<set<int>>, symbols: seq<char>, done: set<int>,
                           keys: seq<seq<int>>, members: map<seq<int>, set<int>>)
  {
    var ok :=
      && (forall k :: k in members <==> k in keys)
      && (forall i, j :: 0 <= i < j < |keys| ==> keys[i] != keys[j])
      && (forall k :: k in members ==> members[k] != {})
      && (forall k, x :: k in members && x in members[k] ==> x in done && Sig(trans, parts, symbols, x) == k)
      && (forall x :: x in done ==>
            Sig(trans, parts, symbols, x) in members && x in members[Sig(trans, parts, symbols, x)]);
    ok
  }

  /** One more state entered under its signature. */
  lemma SigTableAdd(trans: Moves, parts: seq<set<int>>, symbols: seq<char>, done: set<int>,
                    keys: seq<seq<int>>, members: map<seq<int>, set<int>>, s: int)
    requires SigTable(trans, parts, symbols, done, keys, members)
    ensures var sig := Sig(trans, parts, symbols, s);
      if sig in members then SigTable(trans, parts, symbols, done + {s}, keys, members[sig := members[sig] + {s}])
      else SigTable(trans, parts, symbols, done + {s}, keys + [sig], members[sig := {s}])
  {
  }

  /** The values of the finished table are the signature classes of the group. */
  lemma SigTableDone(trans: Moves, parts: seq<set<int>>, symbols: seq<char>, group: set<int>,
                     keys: seq<seq<int>>, members: map<seq<int>, set<int>>, classes: seq<set<int>>)
    requires SigTable(trans, parts, symbols, group, keys, members)
    requires |classes| == |keys| && forall i :: 0 <= i < |keys| ==> keys[i] in members && classes[i] == members[keys[i]]
    ensures SplitBySig(trans, parts, symbols, group, classes)
  {
    forall i, j | 0 <= i < j < |classes| ensures classes[i] !! classes[j] {
      forall x | x in classes[i] ensures x !in classes[j] {
        assert Sig(trans, parts, symbols, x) == keys[i];
      }
    }
    forall x ensures x in Flat(classes) <==> x in group {
      FlatIndex(classes, x);
      if x in group {
        var k := Sig(trans, parts, symbols, x);
        var i :| 0 <= i < |keys| && keys[i] == k;
        assert x in classes[i];
      }
    }
  }

  /**
   * The split of one group in a refinement pass: the states of the group,
   * in any order, entered into `signature_map` under their signatures; the
   * result is the list of its values.
   */
  method SplitGroup(trans: Moves, parts: seq<set<int>>, symbols: seq<char>, group: set<int>)
    returns (classes: seq<set<int>>)
    ensures SplitBySig(trans, parts, symbols, group, classes)
  {
    var keys: seq<seq<int>> := [];
    var members: map<seq<int>, set<int>> := map[];
    var todo := group;
    ghost var done: set<int> := {};
    while todo != {}
      invariant SigTable(trans, parts, symbols, done, keys, members)
      invariant done + todo == group && done !! todo
      decreases |todo|
    {
      var s := Choose(todo);
      var sig := Signature(trans, parts, symbols, s);
      SigTableAdd(trans, parts, symbols, done, keys, members, s);
      if sig in members {
        members := members[sig := members[sig] + {s}];
      } else {
        keys := keys + [sig];
        members := members[sig := {s}];
      }
      done := done + {s};
      todo := todo - {s};
    }
    assert done == group;
    classes := ValuesInOrder(keys, members);
    SigTableDone(trans, parts, symbols, group, keys, members, classes);
  }

  /** `signature_map.values()`: the value of each key, in insertion order. */
  function ValuesInOrder(keys: seq<seq<int>>, members: map<seq<int>, set<int>>): (r: seq<set<int>>)
    requires forall i :: 0 <= i < |keys| ==> keys[i] in members
    ensures |r| == |keys| && forall i :: 0 <= i < |keys| ==> r[i] == members[keys[i]]
  {
    seq(|keys|, i requires 0 <= i < |keys| => members[keys[i]])
  }

  // ---------------------------------------------------------------------------
  // Refinement.

  /** A single group covers its own states. */
  lemma FlatSingle(group: set<int>)
    ensures Flat([group]) == group
  {
    assert [group][1..] == [];
  }

  /** The first groups: the accepting states, then the other states, each only when it is not empty. */
  function InitialPartition(states: set<int>, accepts: set<int>): (parts: seq<set<int>>)
    ensures IsPartition(parts, states + accepts) && Homogeneous(parts, accepts)
  {
    var a := if accepts != {} then [accepts] else [];
    var b := if states - accepts != {} then [states - accepts] else [];
    FlatSingle(accepts);
    FlatSingle(states - accepts);
    FlatAppend(a, b);
    a + b
  }

  /** Every group has a single signature, so a pass splits nothing. */
  ghost predicate Stable(trans: Moves, parts: seq<set<int>>, symbols: seq<char>)
  {
    forall i :: 0 <= i < |parts| ==> SameSig(trans, parts, symbols, parts[i])
  }

  /** What a pass puts in place of `group`: the group itself when it has at most one state, its signature classes otherwise. */
  ghost predicate GroupSplit(trans: Moves, parts: seq<set<int>>, symbols: seq<char>, group: set<int>,
                             pieces: seq<set<int>>)
  {
    if |group| <= 1 then pieces == [group] else SplitBySig(trans, parts, symbols, group, pieces)
  }

  /** The pieces of the groups, one after the other. */
  function Concat(splits: seq<seq<set<int>>>): seq<set<int>>
  {
    if splits == [] then [] else Concat(splits[..|splits| - 1]) + splits[|splits| - 1]
  }

  /** `next` is the outcome of one pass over `parts`, with `splits[i]` the pieces of group `i`. */
  ghost predicate PassResult(trans: Moves, parts: seq<set<int>>, symbols: seq<char>, splits: seq<seq<set<int>>>,
                             next: seq<set<int>>)
  {
    && |splits| == |parts| && next == Concat(splits)
    && forall i :: 0 <= i < |parts| ==> GroupSplit(trans, parts, symbols, parts[i], splits[i])
  }

  /** The groups before `i` hold no state of group `i`. */
  lemma FlatPrefixDisjoint(parts: seq<set<int>>, i: int)
    requires Disjoint(parts) && 0 <= i < |parts|
    ensures Flat(parts[..i]) !! parts[i]
  {
    forall x | x in Flat(parts[..i]) ensures x !in parts[i] {
      FlatIndex(parts[..i], x);
      assert x in parts[GroupIndex(parts[..i], x)];
    }
  }

  /** A single signature class is the group itself. */
  lemma OneClass(trans: Moves, parts: seq<set<int>>, symbols: seq<char>, group: set<int>, classes: seq<set<int>>)
    requires SplitBySig(trans, parts, symbols, group, classes) && |classes| == 1
    ensures classes == [group] && SameSig(trans, parts, symbols, group)
  {
    assert Flat(classes) == classes[0] + Flat(classes[1..]);
    assert classes[1..] == [] && Flat([]) == {};
    assert classes[0] == group;
    assert classes == [classes[0]];
    assert SameSig(trans, parts, symbols, classes[0]);
  }

  /** The pieces of a group are non-empty, disjoint, and together the group. */
  lemma PiecesOf(trans: Moves, parts: seq<set<int>>, symbols: seq<char>, group: set<int>, pieces: seq<set<int>>)
    requires group != {} && GroupSplit(trans, parts, symbols, group, pieces)
    ensures Flat(pieces) == group && NonEmpty(pieces) && Disjoint(pieces) && pieces != []
    ensures forall j :: 0 <= j < |pieces| ==> pieces[j] <= group
  {
    if |group| <= 1 {
      assert Flat(pieces) == group + Flat([]) by { assert pieces[1..] == []; }
    }
    forall j, x | 0 <= j < |pieces| && x in pieces[j] ensures x in group {
      FlatIndex(pieces, x);
    }
  }

  /** One more group taken into the union. */
  lemma FlatSnoc(parts: seq<set<int>>, i: int)
    requires 0 <= i < |parts|
    ensures Flat(parts[..i + 1]) == Flat(parts[..i]) + parts[i]
  {
    assert parts[..i + 1] == parts[..i] + [parts[i]];
    FlatAppend(parts[..i], [parts[i]]);
    assert Flat([parts[i]]) == parts[i] + Flat([]) by { assert [parts[i]][1..] == []; }
  }

  /** The pieces of group `i` appended to the pieces of the groups before it. */
  lemma PassStep(trans: Moves, parts: seq<set<int>>, symbols: seq<char>, accepts: set<int>, i: int,
                 next: seq<set<int>>, pieces: seq<set<int>>)
    requires NonEmpty(parts) && Disjoint(parts) && Homogeneous(parts, accepts) && 0 <= i < |parts|
    requires IsPartition(next, Flat(parts[..i])) && Homogeneous(next, accepts)
    requires GroupSplit(trans, parts, symbols, parts[i], pieces)
    ensures IsPartition(next + pieces, Flat(parts[..i + 1])) && Homogeneous(next + pieces, accepts)
  {
    PiecesOf(trans, parts, symbols, parts[i], pieces);
    FlatPrefixDisjoint(parts, i);
    DisjointAppend(next, pieces);
    FlatAppend(next, pieces);
    FlatSnoc(parts, i);
  }

  lemma TwoMembers(g: set<int>, x: int, y: int)
    requires x in g && y in g && x != y
    ensures |g| >= 2
  {
    assert |g| == |{x, y}| + |g - {x, y}|;
  }

  /** A group of at most one state has a single signature. */
  lemma SmallGroupSame(trans: Moves, parts: seq<set<int>>, symbols: seq<char>, g: set<int>)
    requires |g| <= 1
    ensures SameSig(trans, parts, symbols, g)
  {
    forall x, y | x in g && y in g ensures x == y {
      if x != y {
        TwoMembers(g, x, y);
      }
    }
  }

  /** The state of a pass after the groups before `i`. */
  ghost predicate PassSoFar(trans: Moves, parts: seq<set<int>>, symbols: seq<char>, accepts: set<int>, i: int,
                            splits: seq<seq<set<int>>>, next: seq<set<int>>, changed: bool)
  {
    var ok :=
      && 0 <= i <= |parts| && |splits| == i && next == Concat(splits)
      && (forall j :: 0 <= j < i ==> GroupSplit(trans, parts, symbols, parts[j], splits[j]))
      && IsPartition(next, Flat(parts[..i])) && Homogeneous(next, accepts)
      && |next| >= i && (changed ==> |next| > i)
      && (!changed ==> next == parts[..i] && forall j :: 0 <= j < i ==> SameSig(trans, parts, symbols, parts[j]));
    ok
  }

  lemma PassStart(trans: Moves, parts: seq<set<int>>, symbols: seq<char>, accepts: set<int>)
    ensures PassSoFar(trans, parts, symbols, accepts, 0, [], [], false)
  {
    assert parts[..0] == [];
  }

  /** The pieces of group `i` extend the pass's list of splits and its outcome. */
  lemma SplitsStep(trans: Moves, parts: seq<set<int>>, symbols: seq<char>, i: int, splits: seq<seq<set<int>>>,
                   next: seq<set<int>>, pieces: seq<set<int>>)
    requires 0 <= i < |parts| && |splits| == i && next == Concat(splits)
    requires forall j :: 0 <= j < i ==> GroupSplit(trans, parts, symbols, parts[j], splits[j])
    requires GroupSplit(trans, parts, symbols, parts[i], pieces)
    ensures Concat(splits + [pieces]) == next + pieces
    ensures forall j :: 0 <= j < i + 1 ==> GroupSplit(trans, parts, symbols, parts[j], (splits + [pieces])[j])
  {
    assert (splits + [pieces])[..i] == splits;
  }

  /** A group that stays whole keeps an unchanged pass unchanged. */
  lemma SameSigStep(trans: Moves, parts: seq<set<int>>, symbols: seq<char>, i: int, next: seq<set<int>>,
                    pieces: seq<set<int>>)
    requires 0 <= i < |parts| && next == parts[..i] && forall j :: 0 <= j < i ==> SameSig(trans, parts, symbols, parts[j])
    requires pieces == [parts[i]] && SameSig(trans, parts, symbols, parts[i])
    ensures next + pieces == parts[..i + 1] && forall j :: 0 <= j < i + 1 ==> SameSig(trans, parts, symbols, parts[j])
  {
    assert parts[..i + 1] == parts[..i] + [parts[i]];
  }

  lemma PassSoFarStep(trans: Moves, parts: seq<set<int>>, symbols: seq<char>, u: set<int>, accepts: set<int>,
                      i: int, splits: seq<seq<set<int>>>, next: seq<set<int>>, changed: bool,
                      pieces: seq<set<int>>)
    requires IsPartition(parts, u) && Homogeneous(parts, accepts) && 0 <= i < |parts|
    requires PassSoFar(trans, parts, symbols, accepts, i, splits, next, changed)
    requires GroupSplit(trans, parts, symbols, parts[i], pieces)
    requires |pieces| == 1 ==> pieces == [parts[i]] && SameSig(trans, parts, symbols, parts[i])
    ensures PassSoFar(trans, parts, symbols, accepts, i + 1, splits + [pieces], next + pieces,
                      changed || |pieces| > 1)
  {
    PassStep(trans, parts, symbols, accepts, i, next, pieces);
    PiecesOf(trans, parts, symbols, parts[i], pieces);
    SplitsStep(trans, parts, symbols, i, splits, next, pieces);
    if !changed && |pieces| <= 1 {
      SameSigStep(trans, parts, symbols, i, next, pieces);
    }
  }

  lemma PassDone(trans: Moves, parts: seq<set<int>>, symbols: seq<char>, u: set<int>, accepts: set<int>,
                 splits: seq<seq<set<int>>>, next: seq<set<int>>, changed: bool)
    requires IsPartition(parts, u)
    requires PassSoFar(trans, parts, symbols, accepts, |parts|, splits, next, changed)
    ensures PassResult(trans, parts, symbols, splits, next)
    ensures IsPartition(next, u) && Homogeneous(next, accepts)
    ensures changed ==> |next| > |parts|
    ensures !changed ==> next == parts && Stable(trans, parts, symbols)
  {
    assert parts[..|parts|] == parts;
  }

  /**
   * One pass of the `changed` loop: a group with more than one state is
   * replaced by its signature classes when there are several, with
   * signatures read against the groups as they were before the pass;
   * `changed` says whether some group split.
   */
  method RefinePass(trans: Moves, parts: seq<set<int>>, symbols: seq<char>, ghost u: set<int>, ghost accepts: set<int>)
    returns (next: seq<set<int>>, changed: bool, ghost splits: seq<seq<set<int>>>)
    requires IsPartition(parts, u) && Homogeneous(parts, accepts)
    ensures PassResult(trans, parts, symbols, splits, next)
    ensures IsPartition(next, u) && Homogeneous(next, accepts)
    ensures changed ==> |next| > |parts|
    ensures !changed ==> next == parts && Stable(trans, parts, symbols)
  {
    var out: seq<set<int>> := [];
    var ch := false;
    ghost var sp: seq<seq<set<int>>> := [];
    PassStart(trans, parts, symbols, accepts);
    for i := 0 to |parts|
      invariant PassSoFar(trans, parts, symbols, accepts, i, sp, out, ch)
    {
      var group := parts[i];
      var pieces: seq<set<int>>;
      if |group| <= 1 {
        SmallGroupSame(trans, parts, symbols, group);
        pieces := [group];
      } else {
        var classes := SplitGroup(trans, parts, symbols, group);
        if |classes| > 1 {
          pieces := classes;
        } else {
          PiecesOf(trans, parts, symbols, group, classes);
          OneClass(trans, parts, symbols, group, classes);
          pieces := [group];
        }
      }
      PassSoFarStep(trans, parts, symbols, u, accepts, i, sp, out, ch, pieces);
      ch := ch || |pieces| > 1;
      out := out + pieces;
      sp := sp + [pieces];
    }
    PassDone(trans, parts, symbols, u, accepts, sp, out, ch);
    next, changed, splits := out, ch, sp;
  }

  // ---------------------------------------------------------------------------
  // The coarsest grouping.

  /** The move of `x` on `c` leads to a state other than -1 that belongs to `u`. */
  ghost predicate Inside(trans: Moves, u: set<int>, x: int, c: char)
  {
    (x, c) in trans && trans[(x, c)] != -1 && trans[(x, c)] in u
  }

  /**
   * The grouping of `u` by the label `lab` keeps acceptance and is respected
   * by the moves: states with the same label agree on acceptance and, on
   * every symbol, either both move into `u` to states with the same label or
   * neither does.
   */
  ghost predicate Congruence(trans: Moves, alphabet: set<char>, accepts: set<int>, u: set<int>, lab: int -> int)
  {
    forall x, y :: x in u && y in u && lab(x) == lab(y) ==>
      && (x in accepts <==> y in accepts)
      && forall c :: c in alphabet ==>
           && (Inside(trans, u, x, c) <==> Inside(trans, u, y, c))
           && (Inside(trans, u, x, c) ==> lab(TargetOr(trans, x, c)) == lab(TargetOr(trans, y, c)))
  }

  /** States with the same label share a group. */
  ghost predicate Refines(parts: seq<set<int>>, lab: int -> int, u: set<int>)
  {
    forall x, y :: x in u && y in u && lab(x) == lab(y) ==> GroupIndex(parts, x) == GroupIndex(parts, y)
  }

  /**
   * No grouping that keeps acceptance and is respected by the moves is
   * coarser than `parts`: whatever such a grouping puts together, `parts`
   * puts together too.
   */
  ghost predicate Coarsest(trans: Moves, alphabet: set<char>, accepts: set<int>, u: set<int>, parts: seq<set<int>>)
  {
    forall lab: int -> int :: Congruence(trans, alphabet, accepts, u, lab) ==> Refines(parts, lab, u)
  }

  /** Two states share a group of `parts` exactly when they agree on acceptance. */
  ghost predicate ByAcceptance(parts: seq<set<int>>, u: set<int>, accepts: set<int>)
  {
    forall x, y :: x in u && y in u ==>
      (GroupIndex(parts, x) == GroupIndex(parts, y) <==> (x in accepts <==> y in accepts))
  }

  /** The first groups put two states together exactly when they agree on acceptance. */
  lemma InitialByAcceptance(states: set<int>, accepts: set<int>)
    ensures ByAcceptance(InitialPartition(states, accepts), states + accepts, accepts)
  {
    var parts := InitialPartition(states, accepts);
    var u := states + accepts;
    var a := if accepts != {} then [accepts] else [];
    forall x | x in u
      ensures GroupIndex(parts, x) == if x in accepts then 0 else |a|
    {
      if x in accepts {
        GroupOfMember(parts, 0, x);
      } else {
        GroupOfMember(parts, |a|, x);
      }
    }
  }

  /** Groups split by acceptance alone are the coarsest grouping that keeps acceptance. */
  lemma AcceptanceIsCoarsest(trans: Moves, alphabet: set<char>, accepts: set<int>, u: set<int>, parts: seq<set<int>>)
    requires ByAcceptance(parts, u, accepts)
    ensures Coarsest(trans, alphabet, accepts, u, parts)
  {
  }

  /** States with the same label under a grouping finer than `parts` get the same signature entry. */
  lemma CongruentEntry(trans: Moves, alphabet: set<char>, accepts: set<int>, u: set<int>, parts: seq<set<int>>,
                       lab: int -> int, x: int, y: int, c: char)
    requires Flat(parts) == u && Congruence(trans, alphabet, accepts, u, lab) && Refines(parts, lab, u)
    requires x in u && y in u && lab(x) == lab(y) && c in alphabet
    ensures Entry(trans, parts, x, c) == Entry(trans, parts, y, c)
  {
    var tx, ty := TargetOr(trans, x, c), TargetOr(trans, y, c);
    FlatIndex(parts, tx);
    FlatIndex(parts, ty);
  }

  /** Concatenated pieces: piece `j` of group `i` sits after the pieces of the groups before `i`. */
  lemma {:induction false} ConcatIndex(splits: seq<seq<set<int>>>, i: int, j: int)
    requires 0 <= i < |splits| && 0 <= j < |splits[i]|
    ensures |Concat(splits[..i])| + j < |Concat(splits)|
    ensures Concat(splits)[|Concat(splits[..i])| + j] == splits[i][j]
    decreases |splits|
  {
    var n := |splits|;
    var front := splits[..n - 1];
    if i < n - 1 {
      ConcatIndex(front, i, j);
      assert front[..i] == splits[..i];
    } else {
      assert front == splits[..i];
    }
  }

  /** Two states with the same signature are in the same signature class. */
  lemma ClassBySig(trans: Moves, parts: seq<set<int>>, symbols: seq<char>, group: set<int>, classes: seq<set<int>>,
                   p: int, q: int, x: int, y: int)
    requires SplitBySig(trans, parts, symbols, group, classes)
    requires 0 <= p < |classes| && 0 <= q < |classes| && x in classes[p] && y in classes[q]
    ensures Sig(trans, parts, symbols, x) == Sig(trans, parts, symbols, y) ==> p == q
  {
    if p < q {
      assert Sig(trans, parts, symbols, x) != Sig(trans, parts, symbols, y);
    } else if q < p {
      assert Sig(trans, parts, symbols, y) != Sig(trans, parts, symbols, x);
    }
  }

  /** Two states of group `i` with the same signature land in the same group after the pass. */
  lemma SamePiece(trans: Moves, parts: seq<set<int>>, symbols: seq<char>, splits: seq<seq<set<int>>>,
                  next: seq<set<int>>, i: int, x: int, y: int)
    requires PassResult(trans, parts, symbols, splits, next) && Disjoint(next)
    requires 0 <= i < |parts| && x in parts[i] && y in parts[i]
    requires Sig(trans, parts, symbols, x) == Sig(trans, parts, symbols, y)
    ensures GroupIndex(next, x) == GroupIndex(next, y)
  {
    var pieces := splits[i];
    PiecesOf(trans, parts, symbols, parts[i], pieces);
    FlatIndex(pieces, x);
    FlatIndex(pieces, y);
    var jx, jy := GroupIndex(pieces, x), GroupIndex(pieces, y);
    if |parts[i]| > 1 {
      ClassBySig(trans, parts, symbols, parts[i], pieces, jx, jy, x, y);
    }
    assert jx == jy;
    ConcatIndex(splits, i, jx);
    var k := |Concat(splits[..i])| + jx;
    GroupOfMember(next, k, x);
    GroupOfMember(next, k, y);
  }

  /** A pass keeps the groups the coarsest: it splits only states that some symbol tells apart. */
  lemma PassKeepsCoarsest(trans: Moves, alphabet: set<char>, accepts: set<int>, u: set<int>, parts: seq<set<int>>,
                          symbols: seq<char>, splits: seq<seq<set<int>>>, next: seq<set<int>>)
    requires IsPartition(parts, u) && Coarsest(trans, alphabet, accepts, u, parts)
    requires forall c :: c in symbols ==> c in alphabet
    requires PassResult(trans, parts, symbols, splits, next) && Disjoint(next)
    ensures Coarsest(trans, alphabet, accepts, u, next)
  {
    forall lab: int -> int | Congruence(trans, alphabet, accepts, u, lab) ensures Refines(next, lab, u) {
      assert Refines(parts, lab, u);
      forall x, y | x in u && y in u && lab(x) == lab(y) ensures GroupIndex(next, x) == GroupIndex(next, y) {
        FlatIndex(parts, x);
        var i := GroupIndex(parts, x);
        assert GroupIndex(parts, y) == i;
        forall k | 0 <= k < |symbols|
          ensures Entry(trans, parts, x, symbols[k]) == Entry(trans, parts, y, symbols[k])
        {
          CongruentEntry(trans, alphabet, accepts, u, parts, lab, x, y, symbols[k]);
        }
        assert Sig(trans, parts, symbols, x) == Sig(trans, parts, symbols, y);
        SamePiece(trans, parts, symbols, splits, next, i, x, y);
      }
    }
  }

  /**
   * The `while changed` loop: passes until one splits nothing. Starting from
   * the split by acceptance, the result is the coarsest grouping that keeps
   * acceptance and is respected by the moves.
   */
  method Refine(trans: Moves, symbols: seq<char>, init: seq<set<int>>, ghost alphabet: set<char>, ghost u: set<int>,
                ghost accepts: set<int>)
    returns (parts: seq<set<int>>)
    requires IsPartition(init, u) && Homogeneous(init, accepts) && ByAcceptance(init, u, accepts)
    requires forall c :: c in symbols ==> c in alphabet
    ensures IsPartition(parts, u) && Homogeneous(parts, accepts) && Stable(trans, parts, symbols)
    ensures Coarsest(trans, alphabet, accepts, u, parts)
  {
    var p := init;
    var changed := true;
    PartitionSize(p);
    AcceptanceIsCoarsest(trans, alphabet, accepts, u, p);
    while changed
      invariant IsPartition(p, u) && Homogeneous(p, accepts) && |p| <= |u|
      invariant Coarsest(trans, alphabet, accepts, u, p)
      invariant !changed ==> Stable(trans, p, symbols)
      decreases |u| - |p| + (if changed then 1 else 0)
    {
      var next, ch, splits := RefinePass(trans, p, symbols, u, accepts);
      PassKeepsCoarsest(trans, alphabet, accepts, u, p, symbols, splits, next);
      PartitionSize(next);
      p, changed := next, ch;
    }
    parts := p;
  }

  // ---------------------------------------------------------------------------
  // The minimized DFA.

  /** Group `i` of the result, seen from its representative `rep`: the group of the target on `c`, or -1. */
  function GroupMove(trans: Moves, parts: seq<set<int>>, rep: int, c: char): int
  {
    if (rep, c) in trans then GroupIndex(parts, trans[(rep, c)]) else -1
  }

  /** The transitions of the groups before `i`, with `reps[j]` the representative of group `j`. */
  ghost predicate MovesBefore(m: Moves, trans: Moves, alphabet: set<char>, parts: seq<set<int>>, reps: seq<int>, i: int)
  {
    var ok :=
      && 0 <= i <= |parts| && |reps| == i && (forall j :: 0 <= j < i ==> reps[j] in parts[j])
      && (forall k :: k in m ==> 0 <= k.0 < i && k.1 in alphabet && GroupMove(trans, parts, reps[k.0], k.1) >= 0)
      && (forall k :: k in m ==> m[k] == GroupMove(trans, parts, reps[k.0], k.1))
      && (forall j, c :: 0 <= j < i && c in alphabet && GroupMove(trans, parts, reps[j], c) >= 0 ==> (j, c) in m);
    ok
  }

  /** The transitions of group `i` from its representative `rep`, for the symbols of `done`. */
  ghost predicate RowSoFar(m: Moves, m0: Moves, trans: Moves, parts: seq<set<int>>, i: int, rep: int,
                           done: set<char>)
  {
    var ok :=
      && (forall k :: k in m0 ==> k in m && m[k] == m0[k])
      && (forall k :: k in m && k !in m0 ==>
            k.0 == i && k.1 in done && GroupMove(trans, parts, rep, k.1) >= 0 && m[k] == GroupMove(trans, parts, rep, k.1))
      && (forall c :: c in done && GroupMove(trans, parts, rep, c) >= 0 ==> (i, c) in m);
    ok
  }

  lemma RowNext(trans: Moves, alphabet: set<char>, parts: seq<set<int>>, reps: seq<int>, i: int, rep: int,
                m0: Moves, m: Moves)
    requires MovesBefore(m0, trans, alphabet, parts, reps, i) && i < |parts| && rep in parts[i]
    requires RowSoFar(m, m0, trans, parts, i, rep, alphabet)
    ensures MovesBefore(m, trans, alphabet, parts, reps + [rep], i + 1)
  {
    var reps1 := reps + [rep];
    forall k | k in m ensures 0 <= k.0 < i + 1 && k.1 in alphabet && GroupMove(trans, parts, reps1[k.0], k.1) >= 0
      && m[k] == GroupMove(trans, parts, reps1[k.0], k.1)
    {
      if k in m0 {
        assert reps1[k.0] == reps[k.0];
      }
    }
    forall j, c | 0 <= j < i + 1 && c in alphabet && GroupMove(trans, parts, reps1[j], c) >= 0 ensures (j, c) in m {
      if j < i {
        assert reps1[j] == reps[j];
      }
    }
  }

  lemma RowStep(trans: Moves, alphabet: set<char>, parts: seq<set<int>>, reps: seq<int>, i: int, rep: int,
                m0: Moves, row: Moves, done: set<char>, c: char)
    requires MovesBefore(m0, trans, alphabet, parts, reps, i)
    requires RowSoFar(row, m0, trans, parts, i, rep, done)
    ensures var g := GroupMove(trans, parts, rep, c);
      RowSoFar(if g >= 0 then row[(i, c) := g] else row, m0, trans, parts, i, rep, done + {c})
  {
    if GroupMove(trans, parts, rep, c) >= 0 {
      RowStepAdd(trans, alphabet, parts, reps, i, rep, m0, row, done, c);
    } else {
      RowStepSkip(trans, parts, i, rep, m0, row, done, c);
    }
  }

  /** A symbol whose target lies in a group adds its transition to the row. */
  lemma RowStepAdd(trans: Moves, alphabet: set<char>, parts: seq<set<int>>, reps: seq<int>, i: int, rep: int,
                   m0: Moves, row: Moves, done: set<char>, c: char)
    requires MovesBefore(m0, trans, alphabet, parts, reps, i)
    requires RowSoFar(row, m0, trans, parts, i, rep, done)
    requires GroupMove(trans, parts, rep, c) >= 0
    ensures RowSoFar(row[(i, c) := GroupMove(trans, parts, rep, c)], m0, trans, parts, i, rep, done + {c})
  {
    var row1 := row[(i, c) := GroupMove(trans, parts, rep, c)];
    assert (i, c) !in m0;
    forall k | k in m0 ensures k in row1 && row1[k] == m0[k] {
      assert k in row && row[k] == m0[k];
    }
    forall k | k in row1 && k !in m0
      ensures k.0 == i && k.1 in done + {c} && GroupMove(trans, parts, rep, k.1) >= 0
      ensures row1[k] == GroupMove(trans, parts, rep, k.1)
    {
      if k != (i, c) {
        assert k in row;
      }
    }
    forall d | d in done + {c} && GroupMove(trans, parts, rep, d) >= 0 ensures (i, d) in row1 {
      if d != c {
        assert (i, d) in row;
      }
    }
  }

  /** A symbol whose target lies in no group leaves the row as it is. */
  lemma RowStepSkip(trans: Moves, parts: seq<set<int>>, i: int, rep: int, m0: Moves, row: Moves, done: set<char>, c: char)
    requires RowSoFar(row, m0, trans, parts, i, rep, done)
    requires GroupMove(trans, parts, rep, c) < 0
    ensures RowSoFar(row, m0, trans, parts, i, rep, done + {c})
  {
  }

  /** The loop over the alphabet for group `i`: a transition wherever the representative's target lies in a group. */
  method RowMoves(trans: Moves, alphabet: set<char>, parts: seq<set<int>>, i: int, rep: int, ghost reps: seq<int>,
                  m0: Moves)
    returns (m: Moves)
    requires MovesBefore(m0, trans, alphabet, parts, reps, i) && i < |parts| && rep in parts[i]
    ensures MovesBefore(m, trans, alphabet, parts, reps + [rep], i + 1)
  {
    var row := m0;
    var todo := alphabet;
    ghost var done: set<char> := {};
    while todo != {}
      invariant RowSoFar(row, m0, trans, parts, i, rep, done)
      invariant done + todo == alphabet && done !! todo
      decreases |todo|
    {
      var c := Choose(todo);
      RowStep(trans, alphabet, parts, reps, i, rep, m0, row, done, c);
      if (rep, c) in trans {
        var j := GetGroupId(parts, trans[(rep, c)]);
        if j >= 0 {
          row := row[(i, c) := j];
        }
      }
      done := done + {c};
      todo := todo - {c};
    }
    RowNext(trans, alphabet, parts, reps, i, rep, m0, row);
    m := row;
  }

  /** The transition loop of `minimize`: for each group, any of its states stands for the whole group. */
  method BuildMoves(trans: Moves, alphabet: set<char>, parts: seq<set<int>>)
    returns (m: Moves, ghost reps: seq<int>)
    requires NonEmpty(parts)
    ensures MovesBefore(m, trans, alphabet, parts, reps, |parts|)
  {
    var moves: Moves := map[];
    ghost var rs: seq<int> := [];
    for i := 0 to |parts|
      invariant MovesBefore(moves, trans, alphabet, parts, rs, i)
    {
      var rep := Choose(parts[i]);
      moves := RowMoves(trans, alphabet, parts, i, rep, rs, moves);
      rs := rs + [rep];
    }
    m, reps := moves, rs;
  }

  /** The numbering loop of `minimize`: group `i` becomes state `i`. */
  method NumberGroups(parts: seq<set<int>>) returns (ids: set<int>)
    ensures forall i :: i in ids <==> 0 <= i < |parts|
  {
    ids := {};
    for i := 0 to |parts|
      invariant forall j :: j in ids <==> 0 <= j < i
    {
      ids := ids + {i};
    }
  }

  /**
   * The start and accepting states of the result: the group holding the old
   * start (0, the default, when none does) and the groups with an accepting member.
   */
  method StartAndAccepts(parts: seq<set<int>>, start: int, accepts: set<int>) returns (mstart: int, macc: set<int>)
    requires Disjoint(parts)
    ensures mstart == if GroupIndex(parts, start) >= 0 then GroupIndex(parts, start) else 0
    ensures forall i :: i in macc <==> 0 <= i < |parts| && parts[i] * accepts != {}
  {
    mstart, macc := 0, {};
    for i := 0 to |parts|
      invariant (forall j :: 0 <= j < i ==> start !in parts[j]) ==> mstart == 0
      invariant forall j :: 0 <= j < i && start in parts[j] ==> mstart == j
      invariant forall j :: j in macc <==> 0 <= j < i && parts[j] * accepts != {}
    {
      if start in parts[i] {
        mstart := i;
      }
      if parts[i] * accepts != {} {
        macc := macc + {i};
      }
    }
    if GroupIndex(parts, start) >= 0 {
      GroupOfMember(parts, GroupIndex(parts, start), start);
    }
  }

  /** Within each group, every state has the same entry on every symbol of the alphabet. */
  ghost predicate StableOn(trans: Moves, parts: seq<set<int>>, alphabet: set<char>)
  {
    forall i, x, y, c :: 0 <= i < |parts| && x in parts[i] && y in parts[i] && c in alphabet ==>
      Entry(trans, parts, x, c) == Entry(trans, parts, y, c)
  }

  lemma StableEntries(trans: Moves, parts: seq<set<int>>, symbols: seq<char>, alphabet: set<char>)
    requires Stable(trans, parts, symbols) && forall c :: c in alphabet ==> c in symbols
    ensures StableOn(trans, parts, alphabet)
  {
    forall i, x, y, c | 0 <= i < |parts| && x in parts[i] && y in parts[i] && c in alphabet
      ensures Entry(trans, parts, x, c) == Entry(trans, parts, y, c)
    {
      var k :| 0 <= k < |symbols| && symbols[k] == c;
      assert Sig(trans, parts, symbols, x)[k] == Sig(trans, parts, symbols, y)[k];
    }
  }

  /** The fields of a DFA, read at one moment. */
  datatype Automaton = Automaton(states: set<int>, alphabet: set<char>, trans: Moves, start: int, accepts: set<int>)

  function Fields(d: Dfa): Automaton
    reads d
  {
    Automaton(d.states, d.alphabet, d.transitions, d.start, d.accepts)
  }

  /** The states the groups are made of: the states and the accepting states. */
  function Universe(a: Automaton): set<int>
  {
    a.states + a.accepts
  }

  /**
   * What `minimize` promises about the result `b` for the DFA `a`: the
   * final groups split the states of `a`, each is entirely accepting or
   * not, and no pass would split them further; they are the coarsest such
   * groups, so no two of them could be merged; group `i` is state `i`; the
   * alphabet is kept; the start is the group of the old start (0, the
   * default, when no group holds it); a group accepts when a member does;
   * and group `i` moves on `c` to the group of its representative's target.
   */
  ghost predicate IsMinimized(a: Automaton, parts: seq<set<int>>, reps: seq<int>, b: Automaton)
  {
    && IsPartition(parts, Universe(a)) && Homogeneous(parts, a.accepts) && StableOn(a.trans, parts, a.alphabet)
    && Coarsest(a.trans, a.alphabet, a.accepts, Universe(a), parts)
    && (forall i :: i in b.states <==> 0 <= i < |parts|)
    && b.alphabet == a.alphabet
    && b.start == (if GroupIndex(parts, a.start) >= 0 then GroupIndex(parts, a.start) else 0)
    && (forall i :: i in b.accepts <==> 0 <= i < |parts| && parts[i] * a.accepts != {})
    && MovesBefore(b.trans, a.trans, a.alphabet, parts, reps, |parts|)
  }

  /** The sorted alphabet: `sorted(dfa.alphabet)`. */
  method SortedAlphabet(alphabet: set<char>) returns (symbols: seq<char>)
    ensures Ascending(symbols) && forall c :: c in symbols <==> c in alphabet
  {
    var xs := ToSeq(alphabet);
    symbols := Sort(xs);
    assert forall c :: c in symbols <==> c in multiset(xs);
  }

  /** `DFAMinimizer.minimize`. */
  method Minimize(dfa: Dfa) returns (min: Dfa, ghost parts: seq<set<int>>, ghost reps: seq<int>)
    ensures fresh(min) && IsMinimized(Fields(dfa), parts, reps, Fields(min))
  {
    var states, alphabet, trans, start, accepts := dfa.states, dfa.alphabet, dfa.transitions, dfa.start, dfa.accepts;
    var init := InitialPartition(states, accepts);
    var symbols := SortedAlphabet(alphabet);
    InitialByAcceptance(states, accepts);
    var groups := Refine(trans, symbols, init, alphabet, states + accepts, accepts);
    StableEntries(trans, groups, symbols, alphabet);
    var ids := NumberGroups(groups);
    var mstart, macc := StartAndAccepts(groups, start, accepts);
    var m, rs := BuildMoves(trans, alphabet, groups);
    min := new Dfa.FromParts(ids, alphabet, m, mstart, macc);
    parts, reps := groups, rs;
  }

  // ---------------------------------------------------------------------------
  // What the result is worth.

  /** The result has no more states than the original has states and accepting states together. */
  lemma MinimizedSize(a: Automaton, parts: seq<set<int>>, reps: seq<int>, b: Automaton)
    requires IsMinimized(a, parts, reps, b)
    ensures |parts| <= |Universe(a)|
    ensures a.accepts <= a.states ==> |parts| <= |a.states|
  {
    PartitionSize(parts);
    if a.accepts <= a.states {
      assert Universe(a) == a.states;
    }
  }

  /** With no state numbered -1, a signature entry is the group the move leads to. */
  lemma EntryIsGroupMove(trans: Moves, parts: seq<set<int>>, x: int, c: char)
    requires -1 !in Flat(parts)
    ensures Entry(trans, parts, x, c) == GroupMove(trans, parts, x, c)
  {
    FlatIndex(parts, -1);
  }

  /**
   * Whichever state of group `i` was taken as its representative, the
   * transition of group `i` on `c` is the one any member gives: there is one
   * exactly when the member's target lies in a group, and it leads there.
   */
  lemma AnyRepresentative(a: Automaton, parts: seq<set<int>>, reps: seq<int>, b: Automaton, i: int, x: int, c: char)
    requires IsMinimized(a, parts, reps, b) && -1 !in Universe(a)
    requires 0 <= i < |parts| && x in parts[i] && c in a.alphabet
    ensures (i, c) in b.trans <==> GroupMove(a.trans, parts, x, c) >= 0
    ensures (i, c) in b.trans ==> b.trans[(i, c)] == GroupMove(a.trans, parts, x, c)
  {
    EntryIsGroupMove(a.trans, parts, x, c);
    EntryIsGroupMove(a.trans, parts, reps[i], c);
    assert Entry(a.trans, parts, x, c) == Entry(a.trans, parts, reps[i], c);
  }

  /** A group is accepting exactly when each of its members is. */
  lemma AcceptingGroup(a: Automaton, parts: seq<set<int>>, reps: seq<int>, b: Automaton, i: int, x: int)
    requires IsMinimized(a, parts, reps, b) && 0 <= i < |parts| && x in parts[i]
    ensures i in b.accepts <==> x in a.accepts
  {
    if x in a.accepts {
      assert x in parts[i] * a.accepts;
    }
  }

  /** Every transition from a state of the DFA on a symbol of its alphabet leads to a state of the DFA. */
  ghost predicate Closed(a: Automaton)
  {
    forall k :: k in a.trans && k.0 in Universe(a) && k.1 in a.alphabet ==> a.trans[k] in Universe(a)
  }

  /** Every symbol of `w` is in the alphabet. */
  predicate Over(w: string, alphabet: set<char>)
  {
    forall k :: 0 <= k < |w| ==> w[k] in alphabet
  }

  /** From the group of `s`, the result accepts exactly the words over the alphabet that the DFA accepts from `s`. */
  lemma {:induction false} SameLanguageFrom(a: Automaton, parts: seq<set<int>>, reps: seq<int>, b: Automaton,
                                            s: int, w: string)
    requires IsMinimized(a, parts, reps, b) && Closed(a) && -1 !in Universe(a)
    requires s in Universe(a) && Over(w, a.alphabet)
    ensures Accepted(b.trans, b.accepts, GroupIndex(parts, s), w) <==> Accepted(a.trans, a.accepts, s, w)
    decreases |w|
  {
    FlatIndex(parts, s);
    var i := GroupIndex(parts, s);
    if w == [] {
      AcceptingGroup(a, parts, reps, b, i, s);
    } else {
      var c := w[0];
      AnyRepresentative(a, parts, reps, b, i, s, c);
      if (s, c) in a.trans {
        var t := a.trans[(s, c)];
        FlatIndex(parts, t);
        assert Over(w[1..], a.alphabet);
        SameLanguageFrom(a, parts, reps, b, t, w[1..]);
      }
    }
  }

  /** Minimization keeps the language: the result accepts exactly the words over the alphabet that the DFA accepts. */
  lemma SameLanguage(a: Automaton, parts: seq<set<int>>, reps: seq<int>, b: Automaton, w: string)
    requires IsMinimized(a, parts, reps, b) && Closed(a) && -1 !in Universe(a)
    requires a.start in a.states && Over(w, a.alphabet)
    ensures Accepted(b.trans, b.accepts, b.start, w) <==> Accepted(a.trans, a.accepts, a.start, w)
  {
    FlatIndex(parts, a.start);
    SameLanguageFrom(a, parts, reps, b, a.start, w);
  }

  /**
   * Minimality: two states of the result that agree on acceptance and have
   * the same transition on every symbol are the same state.
   */
  lemma NoEquivalentStates(a: Automaton, parts: seq<set<int>>, reps: seq<int>, b: Automaton, i: int, j: int)
    requires IsMinimized(a, parts, reps, b) && -1 !in Universe(a)
    requires i in b.states && j in b.states && (i in b.accepts <==> j in b.accepts)
    requires forall c :: c in a.alphabet ==> TargetOr(b.trans, i, c) == TargetOr(b.trans, j, c)
    ensures i == j
  {
    var lab := (x: int) => if GroupIndex(parts, x) == j then i else GroupIndex(parts, x);
    MergedCongruence(a, parts, reps, b, i, j, lab);
    MergedGroups(parts, Universe(a), lab, i, j, reps[i], reps[j]);
  }

  /** A label that the groups refine and that joins a member of group `i` to one of group `j` makes them one group. */
  lemma MergedGroups(parts: seq<set<int>>, u: set<int>, lab: int -> int, i: int, j: int, x: int, y: int)
    requires IsPartition(parts, u) && Refines(parts, lab, u)
    requires 0 <= i < |parts| && 0 <= j < |parts| && x in parts[i] && y in parts[j]
    requires forall z :: lab(z) == if GroupIndex(parts, z) == j then i else GroupIndex(parts, z)
    ensures i == j
  {
    FlatIndex(parts, x);
    FlatIndex(parts, y);
    GroupOfMember(parts, i, x);
    GroupOfMember(parts, j, y);
    assert lab(x) == lab(y);
  }

  /** Merging groups `j` into `i` of equal acceptance and rows is still a grouping respected by the moves. */
  lemma MergedCongruence(a: Automaton, parts: seq<set<int>>, reps: seq<int>, b: Automaton, i: int, j: int,
                         lab: int -> int)
    requires IsMinimized(a, parts, reps, b) && -1 !in Universe(a)
    requires i in b.states && j in b.states && (i in b.accepts <==> j in b.accepts)
    requires forall c :: c in a.alphabet ==> TargetOr(b.trans, i, c) == TargetOr(b.trans, j, c)
    requires forall x :: lab(x) == if GroupIndex(parts, x) == j then i else GroupIndex(parts, x)
    ensures Congruence(a.trans, a.alphabet, a.accepts, Universe(a), lab)
  {
    var u := Universe(a);
    forall x, y | x in u && y in u && lab(x) == lab(y)
      ensures x in a.accepts <==> y in a.accepts
      ensures forall c :: c in a.alphabet ==>
           && (Inside(a.trans, u, x, c) <==> Inside(a.trans, u, y, c))
           && (Inside(a.trans, u, x, c) ==> lab(TargetOr(a.trans, x, c)) == lab(TargetOr(a.trans, y, c)))
    {
      FlatIndex(parts, x);
      FlatIndex(parts, y);
      var gx, gy := GroupIndex(parts, x), GroupIndex(parts, y);
      AcceptingGroup(a, parts, reps, b, gx, x);
      AcceptingGroup(a, parts, reps, b, gy, y);
      forall c | c in a.alphabet
        ensures Inside(a.trans, u, x, c) <==> Inside(a.trans, u, y, c)
        ensures Inside(a.trans, u, x, c) ==> lab(TargetOr(a.trans, x, c)) == lab(TargetOr(a.trans, y, c))
      {
        SameRowMove(a, parts, reps, b, gx, gy, x, y, c);
      }
    }
  }

  /** Members of two groups with the same row move on `c` into `u` together, and to the same group. */
  lemma SameRowMove(a: Automaton, parts: seq<set<int>>, reps: seq<int>, b: Automaton, gx: int, gy: int, x: int, y: int,
                    c: char)
    requires IsMinimized(a, parts, reps, b) && -1 !in Universe(a)
    requires 0 <= gx < |parts| && x in parts[gx] && 0 <= gy < |parts| && y in parts[gy] && c in a.alphabet
    requires TargetOr(b.trans, gx, c) == TargetOr(b.trans, gy, c)
    ensures Inside(a.trans, Universe(a), x, c) <==> Inside(a.trans, Universe(a), y, c)
    ensures Inside(a.trans, Universe(a), x, c) ==>
              GroupIndex(parts, TargetOr(a.trans, x, c)) == GroupIndex(parts, TargetOr(a.trans, y, c))
  {
    AnyRepresentative(a, parts, reps, b, gx, x, c);
    AnyRepresentative(a, parts, reps, b, gy, y, c);
    FlatIndex(parts, TargetOr(a.trans, x, c));
    FlatIndex(parts, TargetOr(a.trans, y, c));
  }
}
