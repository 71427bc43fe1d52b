/**
 * FIRST and FOLLOW sets (`syntax/first_follow.py`). Both are computed by a
 * `changed`-flag fixed-point loop that sweeps the production list and grows
 * a map from symbols to sets of symbols until a sweep adds nothing.
 */
module FirstFollow {
  import opened Grammar

  /** A map from grammar symbols to sets of symbols, as `first_sets` and `follow_sets` are. */
  type SetMap = map<string, set<string>>

  /** The FIRST set the algorithm reads for a symbol: its entry, or `{symbol}` for an unknown symbol. */
  function FirstOf(m: SetMap, s: string): set<string>
  {
    if s in m then m[s] else {s}
  }

  /** `first_of_sequence`: the FIRST set of a symbol sequence read from the map `m`. */
  function FirstSeq(m: SetMap, xs: seq<string>): set<string>
  {
    if xs == [] then {Epsilon}
    else (FirstOf(m, xs[0]) - {Epsilon}) + (if Epsilon in FirstOf(m, xs[0]) then FirstSeq(m, xs[1..]) else {})
  }

  /** `ε` is in FIRST of a sequence exactly when every symbol of it has `ε`; so FIRST of the empty sequence is `{ε}`. */
  lemma {:induction false} FirstSeqNullable(m: SetMap, xs: seq<string>)
    ensures Epsilon in FirstSeq(m, xs) <==> forall i :: 0 <= i < |xs| ==> Epsilon in FirstOf(m, xs[i])
    decreases |xs|
  {
    if xs != [] {
      FirstSeqNullable(m, xs[1..]);
      assert forall i :: 1 <= i < |xs| ==> xs[i] == xs[1..][i - 1];
    }
  }

  /**
   * A symbol other than `ε` is in FIRST of a sequence exactly when it is in
   * FIRST of some symbol all of whose predecessors have `ε`.
   */
  lemma {:induction false} FirstSeqMembers(m: SetMap, xs: seq<string>, x: string)
    requires x != Epsilon
    ensures x in FirstSeq(m, xs) <==>
              exists i :: 0 <= i < |xs| && x in FirstOf(m, xs[i]) && forall j :: 0 <= j < i ==> Epsilon in FirstOf(m, xs[j])
    decreases |xs|
  {
    if xs != [] {
      FirstSeqMembers(m, xs[1..], x);
      if x in FirstSeq(m, xs) {
        if x !in FirstOf(m, xs[0]) {
          var i :| 0 <= i < |xs[1..]| && x in FirstOf(m, xs[1..][i])
                   && forall j :: 0 <= j < i ==> Epsilon in FirstOf(m, xs[1..][j]);
          assert x in FirstOf(m, xs[i + 1]);
          assert forall j :: 0 <= j < i + 1 ==> Epsilon in FirstOf(m, xs[j]) by {
            forall j | 0 <= j < i + 1 ensures Epsilon in FirstOf(m, xs[j]) {
              if j > 0 {
                assert xs[j] == xs[1..][j - 1];
              }
            }
          }
        }
      }
      if exists i :: 0 <= i < |xs| && x in FirstOf(m, xs[i]) && forall j :: 0 <= j < i ==> Epsilon in FirstOf(m, xs[j]) {
        var i :| 0 <= i < |xs| && x in FirstOf(m, xs[i]) && forall j :: 0 <= j < i ==> Epsilon in FirstOf(m, xs[j]);
        if i > 0 {
          assert x in FirstOf(m, xs[1..][i - 1]);
          assert forall j :: 0 <= j < i - 1 ==> Epsilon in FirstOf(m, xs[1..][j]) by {
            forall j | 0 <= j < i - 1 ensures Epsilon in FirstOf(m, xs[1..][j]) {
              assert xs[1..][j] == xs[j + 1];
            }
          }
        }
      }
    }
  }

  /** `first_of_sequence` stops at the first symbol without `ε`: the rest of the sequence is never read. */
  lemma {:induction false} FirstSeqStops(m: SetMap, xs: seq<string>, k: nat)
    requires k < |xs| && Epsilon !in FirstOf(m, xs[k])
    ensures FirstSeq(m, xs) == FirstSeq(m, xs[..k + 1])
    decreases k
  {
    if k > 0 {
      assert xs[1..][k - 1] == xs[k];
      FirstSeqStops(m, xs[1..], k - 1);
      assert xs[1..][..k] == xs[..k + 1][1..];
    }
  }

  // ---------------------------------------------------------------------------
  // Growing maps.

  /** Every key of `m0` is still there, with a superset of its set. */
  predicate Grown(m0: SetMap, m: SetMap)
  {
    forall k :: k in m0 ==> k in m && m0[k] <= m[k]
  }

  /** The keys lie in `keys` and every set in `u`. */
  predicate Inside(m: SetMap, keys: set<string>, u: set<string>)
  {
    m.Keys <= keys && forall k :: k in m ==> m[k] <= u
  }

  /** Some key's set has grown strictly. */
  predicate GrewSomewhere(m0: SetMap, m: SetMap)
  {
    exists k :: k in m0 && k in m && m0[k] < m[k]
  }

  /** `m` reads like `m0`: the old entries are unchanged and every new key `k` maps to `{k}`. */
  predicate SameView(m0: SetMap, m: SetMap)
  {
    (forall k :: k in m0 ==> k in m && m[k] == m0[k]) && (forall k :: k in m && k !in m0 ==> m[k] == {k})
  }

  /** Every key/element pair of the map. */
  function Pairs(m: SetMap): set<(string, string)>
  {
    set k, x | k in m && x in m[k] :: (k, x)
  }

  /** Every pair of a key in `keys` and an element of `u`. */
  function Product(keys: set<string>, u: set<string>): set<(string, string)>
  {
    set k, x | k in keys && x in u :: (k, x)
  }

  /** Every element of every set of the map. */
  function Values(m: SetMap): set<string>
  {
    set k, x | k in m && x in m[k] :: x
  }

  /** Every symbol on a right side of `ps`. */
  function RightSymbols(ps: seq<Production>): set<string>
  {
    set i, j | 0 <= i < |ps| && 0 <= j < |ps[i].right| :: ps[i].right[j]
  }

  /** A sweep that grew some set, inside a fixed universe, leaves fewer pairs to add. */
  lemma Progress(m0: SetMap, m: SetMap, keys: set<string>, u: set<string>)
    requires Grown(m0, m) && Inside(m, keys, u) && GrewSomewhere(m0, m)
    ensures Product(keys, u) - Pairs(m) < Product(keys, u) - Pairs(m0)
  {
    var k :| k in m0 && k in m && m0[k] < m[k];
    var x :| x in m[k] && x !in m0[k];
    assert (k, x) in Pairs(m) && (k, x) !in Pairs(m0) && (k, x) in Product(keys, u);
    assert Pairs(m0) <= Pairs(m);
  }

  /** A map whose entries equal its view reads every symbol the same. */
  lemma SameViewFirstOf(m0: SetMap, m: SetMap, s: string)
    requires SameView(m0, m)
    ensures FirstOf(m, s) == FirstOf(m0, s)
  {
  }

  lemma {:induction false} SameViewFirstSeq(m0: SetMap, m: SetMap, xs: seq<string>)
    requires SameView(m0, m)
    ensures FirstSeq(m, xs) == FirstSeq(m0, xs)
    decreases |xs|
  {
    if xs != [] {
      SameViewFirstOf(m0, m, xs[0]);
      SameViewFirstSeq(m0, m, xs[1..]);
    }
  }

  // ---------------------------------------------------------------------------
  // FIRST sets.

  /** A production whose right side is empty or the single symbol `ε`. */
  predicate EpsilonRight(p: Production)
  {
    p.right == [] || p.right == [Epsilon]
  }

  /**
   * The rule of `compute_first_sets` for one production `A -> X1..Xn` holds in
   * `m`: `ε` is in FIRST(A) for an `ε` production, and otherwise FIRST(X1..Xn)
   * is contained in FIRST(A).
   */
  predicate FirstRule(m: SetMap, p: Production)
  {
    p.left in m && if EpsilonRight(p) then Epsilon in m[p.left] else FirstSeq(m, p.right) <= m[p.left]
  }

  /**
   * How a FIRST step may change the map: it stays inside the universe, only
   * grows, only the entry of `left` changes among the old keys, and every new
   * key `k` maps to `{k}`.
   */
  predicate Kept(m0: SetMap, m: SetMap, left: string, keys: set<string>, u: set<string>)
  {
    var ok := Inside(m, keys, u) && Grown(m0, m) && left in m
      && (forall k :: k in m0 && k != left ==> m[k] == m0[k])
      && (forall k :: k in m && k !in m0 ==> m[k] == {k});
    ok
  }

  /** A step that left the entry of `left` as it was reads like the map it started from. */
  lemma KeptSameView(m0: SetMap, m: SetMap, left: string, keys: set<string>, u: set<string>)
    requires Kept(m0, m, left, keys, u) && left in m0 && m[left] == m0[left]
    ensures SameView(m0, m)
  {
  }

  lemma KeptInsert(m0: SetMap, m: SetMap, left: string, keys: set<string>, u: set<string>, s: string)
    requires Kept(m0, m, left, keys, u) && s !in m && s in keys && s in u
    ensures Kept(m0, m[s := {s}], left, keys, u)
  {
    var m' := m[s := {s}];
    assert Inside(m', keys, u);
    assert Grown(m0, m');
  }

  lemma KeptAdd(m0: SetMap, m: SetMap, left: string, keys: set<string>, u: set<string>, add: set<string>)
    requires Kept(m0, m, left, keys, u) && left in m0 && add <= u
    ensures Kept(m0, m[left := m[left] + add], left, keys, u)
  {
    var m' := m[left := m[left] + add];
    assert Inside(m', keys, u);
    assert Grown(m0, m');
  }

  /** FIRST of each of the first `k` symbols, minus `ε`, together. */
  function PrefixUnion(m: SetMap, xs: seq<string>, k: nat): (r: set<string>)
    requires k <= |xs|
    ensures Epsilon !in r
  {
    if k == 0 then {} else PrefixUnion(m, xs, k - 1) + (FirstOf(m, xs[k - 1]) - {Epsilon})
  }

  /** Over a prefix whose symbols all have `ε`, FIRST of a sequence is their union followed by FIRST of the rest. */
  lemma {:induction false} FirstSeqSplit(m: SetMap, xs: seq<string>, k: nat)
    requires k <= |xs| && forall j :: 0 <= j < k ==> Epsilon in FirstOf(m, xs[j])
    ensures FirstSeq(m, xs) == PrefixUnion(m, xs, k) + FirstSeq(m, xs[k..])
    decreases k
  {
    if k == 0 {
      assert xs[0..] == xs;
    } else {
      FirstSeqSplit(m, xs, k - 1);
      assert xs[k - 1..][0] == xs[k - 1] && xs[k - 1..][1..] == xs[k..];
    }
  }

  /** FIRST of a sequence that stops at `xs[k]`: the union up to and including `xs[k]`. */
  lemma FirstSeqStop(m: SetMap, xs: seq<string>, k: nat)
    requires k < |xs| && (forall j :: 0 <= j < k ==> Epsilon in FirstOf(m, xs[j])) && Epsilon !in FirstOf(m, xs[k])
    ensures FirstSeq(m, xs) == PrefixUnion(m, xs, k + 1)
  {
    FirstSeqSplit(m, xs, k);
    assert xs[k..][0] == xs[k];
  }

  /** FIRST of a sequence whose symbols all have `ε`: their union and `ε`. */
  lemma FirstSeqAll(m: SetMap, xs: seq<string>)
    requires forall j :: 0 <= j < |xs| ==> Epsilon in FirstOf(m, xs[j])
    ensures FirstSeq(m, xs) == PrefixUnion(m, xs, |xs|) + {Epsilon}
  {
    FirstSeqSplit(m, xs, |xs|);
    assert xs[|xs|..] == [];
  }

  /** What one production adds to FIRST of its left side: `ε` for an `ε` production, FIRST of the right side otherwise. */
  function RightFirst(m: SetMap, p: Production): set<string>
  {
    if EpsilonRight(p) then {Epsilon} else FirstSeq(m, p.right)
  }

  /**
   * One right-side symbol of the inner loop, on values: an unknown symbol is
   * entered as `{symbol}`, then FIRST(symbol) minus `ε` joins the left side's set.
   */
  function AddSymbol(fs: SetMap, left: string, symbol: string): (r: SetMap)
    requires left in fs
    ensures fs.Keys <= r.Keys
  {
    var fs1 := if symbol in fs then fs else fs[symbol := {symbol}];
    fs1[left := fs1[left] + (FirstOf(fs, symbol) - {Epsilon})]
  }

  /**
   * The loop body of `compute_first_sets` for one right-side symbol: an
   * unknown symbol is entered as `{symbol}`, then FIRST(symbol) minus `ε` is
   * added to the left side's set. Returns whether `ε` is in FIRST(symbol) and
   * whether the left side's set grew.
   */
  method AddSymbolFirst(m0: SetMap, fs: SetMap, left: string, symbol: string, ghost keys: set<string>, ghost u: set<string>)
    returns (fs': SetMap, nullable: bool, grew: bool)
    requires Kept(m0, fs, left, keys, u) && left in m0 && symbol in keys && symbol in u && Epsilon in u
    ensures fs' == AddSymbol(fs, left, symbol) && Kept(m0, fs', left, keys, u)
    ensures nullable == (Epsilon in FirstOf(fs, symbol))
    ensures grew ==> fs[left] < fs'[left]
    ensures !grew ==> fs'[left] == fs[left] && FirstOf(fs, symbol) - {Epsilon} <= fs[left]
  {
    var m := fs;
    var symbolFirst;
    if symbol in m {
      symbolFirst := m[symbol];
    } else {
      symbolFirst := {symbol};
      KeptInsert(m0, m, left, keys, u, symbol);
      m := m[symbol := symbolFirst];
    }
    assert symbolFirst == FirstOf(fs, symbol) && m[left] == fs[left];
    var before := |m[left]|;
    KeptAdd(m0, m, left, keys, u, symbolFirst - {Epsilon});
    m := m[left := m[left] + (symbolFirst - {Epsilon})];
    grew := |m[left]| > before;
    if grew {
      assert |fs[left]| == before && fs[left] <= m[left] && fs[left] != m[left];
    } else if fs[left] != m[left] {
      StrictSubsetSize(fs[left], m[left]);
      assert false;
    }
    nullable := Epsilon in symbolFirst;
    fs' := m;
  }

  /** Writing an entry back unchanged leaves the map as it is. */
  lemma SameEntry(m: SetMap, k: string, v: set<string>)
    requires k in m && v == m[k]
    ensures m[k := v] == m
  {
  }

  /**
   * What the inner loop has established after `k` symbols: every symbol so
   * far has `ε`, the left side's set has gained the union of their FIRST
   * sets, and `grew` reports whether it is larger than before the loop.
   */
  ghost predicate PrefixAdded(m0: SetMap, fs: SetMap, left: string, right: seq<string>, k: nat,
                              keys: set<string>, u: set<string>, grew: bool)
  {
    var ok := k <= |right| && left in m0 && Kept(m0, fs, left, keys, u)
      && (forall j :: 0 <= j < k ==> Epsilon in FirstOf(m0, right[j]))
      && fs[left] == m0[left] + PrefixUnion(m0, right, k)
      && (grew <==> m0[left] < fs[left]);
    ok
  }

  /**
   * One symbol of the inner loop, read against the map before the loop: the
   * symbol has `ε` exactly when it had it before, and the left side's set
   * becomes the union one symbol further.
   */
  lemma AddSymbolStep(m0: SetMap, prev: SetMap, fs: SetMap, left: string, right: seq<string>, k: nat,
                      keys: set<string>, u: set<string>, grew: bool, g: bool)
    requires PrefixAdded(m0, prev, left, right, k, keys, u, grew) && left in m0 && k < |right|
    requires fs == AddSymbol(prev, left, right[k]) && Kept(m0, fs, left, keys, u)
    requires (g ==> prev[left] < fs[left]) && (!g ==> fs[left] == prev[left])
    ensures fs[left] == m0[left] + PrefixUnion(m0, right, k + 1)
    ensures Epsilon in FirstOf(prev, right[k]) <==> Epsilon in FirstOf(m0, right[k])
    ensures (grew || g) <==> m0[left] < fs[left]
    ensures Epsilon in FirstOf(m0, right[k]) ==> PrefixAdded(m0, fs, left, right, k + 1, keys, u, grew || g)
    ensures Epsilon !in FirstOf(m0, right[k]) ==> fs[left] == m0[left] + FirstSeq(m0, right)
  {
    if Epsilon !in FirstOf(m0, right[k]) {
      FirstSeqStop(m0, right, k);
    }
    if right[k] != left {
      assert FirstOf(prev, right[k]) == FirstOf(m0, right[k]);
    }
  }

  /** After a right side whose every symbol has `ε`, adding `ε` completes FIRST of the right side. */
  lemma AllNullable(m0: SetMap, fs: SetMap, left: string, right: seq<string>,
                    keys: set<string>, u: set<string>, grew: bool)
    requires left in m0 && Kept(m0, fs, left, keys, u) && forall j :: 0 <= j < |right| ==> Epsilon in FirstOf(m0, right[j])
    requires fs[left] == m0[left] + PrefixUnion(m0, right, |right|) + {Epsilon}
    requires grew <==> m0[left] < fs[left]
    ensures fs[left] == m0[left] + FirstSeq(m0, right)
  {
    FirstSeqAll(m0, right);
  }

  /**
   * The `for symbol in right` loop of `compute_first_sets` with its `else`
   * branch: FIRST of each symbol minus `ε` is added to the left side's set up
   * to the first symbol without `ε`, and `ε` is added when there is none; so
   * the left side's set gains exactly FIRST(right).
   */
  method AddRightFirst(m0: SetMap, left: string, right: seq<string>, ghost keys: set<string>, ghost u: set<string>)
    returns (m: SetMap, changed: bool)
    requires left in m0 && Inside(m0, keys, u) && Epsilon in u
    requires forall i :: 0 <= i < |right| ==> right[i] in keys && right[i] in u
    ensures Kept(m0, m, left, keys, u) && m[left] == m0[left] + FirstSeq(m0, right)
    ensures changed <==> m0[left] < m[left]
  {
    var fs := m0;
    var grew := false;
    var k := 0;
    while k < |right|
      invariant left in fs && PrefixAdded(m0, fs, left, right, k, keys, u, grew)
    {
      ghost var prev := fs;
      var nullable, g;
      fs, nullable, g := AddSymbolFirst(m0, fs, left, right[k], keys, u);
      AddSymbolStep(m0, prev, fs, left, right, k, keys, u, grew, g);
      grew := grew || g;
      if !nullable {
        return fs, grew;
      }
      k := k + 1;
    }
    if Epsilon !in fs[left] {
      KeptAdd(m0, fs, left, keys, u, {Epsilon});
      fs := fs[left := fs[left] + {Epsilon}];
      grew := true;
    }
    AllNullable(m0, fs, left, right, keys, u, grew);
    m, changed := fs, grew;
  }

  /**
   * One production of a FIRST sweep: FIRST of the left side gains exactly
   * what the production adds, every other symbol reads as before (unknown
   * right-side symbols are entered as `{symbol}`), and the map stays inside
   * the universe; `changed` reports growth of the left side's set, and when
   * nothing changed the production's rule holds.
   */
  method FirstProduction(m0: SetMap, p: Production, ghost keys: set<string>, ghost u: set<string>)
    returns (m: SetMap, changed: bool)
    requires p.left in m0 && Inside(m0, keys, u) && Epsilon in u
    requires forall i :: 0 <= i < |p.right| ==> p.right[i] in keys && p.right[i] in u
    ensures Kept(m0, m, p.left, keys, u) && m[p.left] == m0[p.left] + RightFirst(m0, p)
    ensures changed <==> m0[p.left] < m[p.left]
    ensures !changed ==> FirstRule(m, p)
  {
    var left, right := p.left, p.right;
    if right == [] || right == [Epsilon] {
      m, changed := m0, false;
      if Epsilon !in m[left] {
        m := m[left := m[left] + {Epsilon}];
        changed := true;
      }
    } else {
      m, changed := AddRightFirst(m0, left, right, keys, u);
      if !changed {
        KeptSameView(m0, m, left, keys, u);
        SameViewFirstSeq(m0, m, right);
      }
    }
  }

  /** A rule that holds in a map still holds once the map is only extended by unknown symbols. */
  lemma FirstRuleStable(m0: SetMap, m: SetMap, p: Production)
    requires FirstRule(m0, p) && SameView(m0, m)
    ensures FirstRule(m, p)
  {
    SameViewFirstSeq(m0, m, p.right);
  }

  /** The rules that held before an unchanged production still hold, and so does its own. */
  lemma RulesKept(m0: SetMap, m: SetMap, ps: seq<Production>, n: int)
    requires 0 <= n < |ps| && SameView(m0, m) && FirstRule(m, ps[n])
    requires forall i :: 0 <= i < n ==> FirstRule(m0, ps[i])
    ensures forall i :: 0 <= i < n + 1 ==> FirstRule(m, ps[i])
  {
    forall i | 0 <= i < n ensures FirstRule(m, ps[i]) {
      FirstRuleStable(m0, m, ps[i]);
    }
  }

  /** Every left side of `ps` is a key of `m`. */
  predicate LeftsIn(ps: seq<Production>, m: SetMap)
  {
    forall i :: 0 <= i < |ps| ==> ps[i].left in m
  }

  /** `k` is the left side of some production of `ps`. */
  predicate IsLeft(ps: seq<Production>, k: string)
  {
    exists i :: 0 <= i < |ps| && ps[i].left == k
  }

  /** Every production's FIRST rule holds in `big`. */
  ghost predicate ClosedFirst(big: SetMap, ps: seq<Production>)
  {
    forall i :: 0 <= i < |ps| ==> FirstRule(big, ps[i])
  }

  /** For every symbol of `keys`, the FIRST set read from `m` lies within the one read from `big`. */
  ghost predicate Below(m: SetMap, big: SetMap, keys: set<string>)
  {
    forall k :: k in keys ==> FirstOf(m, k) <= FirstOf(big, k)
  }

  /**
   * Going from `m0` to `m` adds nothing that a map closed under the rules of
   * `ps` and lying above `m0` lacks; the fixed point is therefore the least
   * closed map above where it started.
   */
  ghost predicate StaysBelow(m0: SetMap, m: SetMap, ps: seq<Production>, keys: set<string>)
  {
    forall big :: ClosedFirst(big, ps) && Below(m0, big, keys) ==> Below(m, big, keys)
  }

  /** FIRST of a sequence grows with the FIRST sets of its symbols. */
  lemma {:induction false} FirstSeqMono(m: SetMap, big: SetMap, xs: seq<string>)
    requires forall j :: 0 <= j < |xs| ==> FirstOf(m, xs[j]) <= FirstOf(big, xs[j])
    ensures FirstSeq(m, xs) <= FirstSeq(big, xs)
    decreases |xs|
  {
    if xs != [] {
      FirstSeqMono(m, big, xs[1..]);
    }
  }

  /** One production's exact step stays below every closed map above its start. */
  lemma ProductionBelow(prev: SetMap, fs: SetMap, p: Production, keys: set<string>, u: set<string>, big: SetMap)
    requires Kept(prev, fs, p.left, keys, u) && p.left in prev && fs[p.left] == prev[p.left] + RightFirst(prev, p)
    requires forall j :: 0 <= j < |p.right| ==> p.right[j] in keys
    requires FirstRule(big, p) && Below(prev, big, keys) && p.left in keys
    ensures Below(fs, big, keys)
  {
    if !EpsilonRight(p) {
      FirstSeqMono(prev, big, p.right);
    }
    forall k | k in keys ensures FirstOf(fs, k) <= FirstOf(big, k) {
      if k != p.left {
        assert FirstOf(fs, k) == FirstOf(prev, k);
      }
    }
  }

  /** Adding one production's step to a sweep keeps the sweep below every closed map. */
  lemma SweepStaysBelow(m0: SetMap, prev: SetMap, fs: SetMap, ps: seq<Production>, n: nat, keys: set<string>, u: set<string>)
    requires n < |ps| && StaysBelow(m0, prev, ps, keys) && prev.Keys <= keys
    requires Kept(prev, fs, ps[n].left, keys, u) && ps[n].left in prev
    requires fs[ps[n].left] == prev[ps[n].left] + RightFirst(prev, ps[n])
    requires forall j :: 0 <= j < |ps[n].right| ==> ps[n].right[j] in keys
    ensures StaysBelow(m0, fs, ps, keys)
  {
    forall big | ClosedFirst(big, ps) && Below(m0, big, keys) ensures Below(fs, big, keys) {
      ProductionBelow(prev, fs, ps[n], keys, u, big);
    }
  }

  /** Staying below composes along consecutive sweeps. */
  lemma StaysBelowTrans(m0: SetMap, m1: SetMap, m2: SetMap, ps: seq<Production>, keys: set<string>)
    requires StaysBelow(m0, m1, ps, keys) && StaysBelow(m1, m2, ps, keys)
    ensures StaysBelow(m0, m2, ps, keys)
  {
  }

  /**
   * One sweep of `compute_first_sets` over the productions: the map grows
   * inside the universe, only left sides' sets change apart from unknown
   * symbols entered as `{symbol}`, `changed` reports that some set grew, and
   * when nothing changed every production's rule holds.
   */
  method FirstSweep(m0: SetMap, ps: seq<Production>, ghost keys: set<string>, ghost u: set<string>)
    returns (m: SetMap, changed: bool)
    requires LeftsIn(ps, m0) && Inside(m0, keys, u) && Epsilon in u
    requires forall i, j :: 0 <= i < |ps| && 0 <= j < |ps[i].right| ==> ps[i].right[j] in keys && ps[i].right[j] in u
    ensures Inside(m, keys, u) && Grown(m0, m)
    ensures forall k :: k in m0 && !IsLeft(ps, k) ==> m[k] == m0[k]
    ensures forall k :: k in m && k !in m0 ==> m[k] == {k}
    ensures changed ==> GrewSomewhere(m0, m)
    ensures !changed ==> forall i :: 0 <= i < |ps| ==> FirstRule(m, ps[i])
    ensures StaysBelow(m0, m, ps, keys)
  {
    var fs := m0;
    var grew := false;
    var n := 0;
    while n < |ps|
      invariant 0 <= n <= |ps| && LeftsIn(ps, fs)
      invariant Inside(fs, keys, u) && Grown(m0, fs)
      invariant forall k :: k in m0 && !IsLeft(ps, k) ==> fs[k] == m0[k]
      invariant forall k :: k in fs && k !in m0 ==> fs[k] == {k}
      invariant grew ==> GrewSomewhere(m0, fs)
      invariant !grew ==> SameView(m0, fs) && forall i :: 0 <= i < n ==> FirstRule(fs, ps[i])
      invariant StaysBelow(m0, fs, ps, keys)
    {
      ghost var prev := fs;
      var c;
      fs, c := FirstProduction(fs, ps[n], keys, u);
      SweepStaysBelow(m0, prev, fs, ps, n, keys, u);
      if !grew && !c {
        forall i | 0 <= i < n ensures FirstRule(fs, ps[i]) {
          FirstRuleStable(prev, fs, ps[i]);
        }
      }
      if c {
        assert m0[ps[n].left] <= prev[ps[n].left] < fs[ps[n].left];
        grew := true;
      }
      n := n + 1;
    }
    m, changed := fs, grew;
  }

  // ---------------------------------------------------------------------------
  // FOLLOW sets.

  /**
   * The rule of `compute_follow_sets` for the nonterminal at position `i` of
   * `A -> αBβ`: FIRST(β) minus `ε` is in FOLLOW(B), and when `ε` is in
   * FIRST(β) (in particular when β is empty) FOLLOW(A) is in FOLLOW(B).
   */
  predicate FollowRule(first: SetMap, f: SetMap, p: Production, i: nat)
    requires i < |p.right|
  {
    var b := p.right[i];
    var beta := FirstSeq(first, p.right[i + 1..]);
    b in f && p.left in f && beta - {Epsilon} <= f[b] && (Epsilon in beta ==> f[p.left] <= f[b])
  }

  /** Every nonterminal occurrence in `p` satisfies its FOLLOW rule. */
  predicate FollowRules(first: SetMap, f: SetMap, p: Production, nts: set<string>)
  {
    forall i :: 0 <= i < |p.right| && p.right[i] in nts ==> FollowRule(first, f, p, i)
  }

  /** How a FOLLOW step may change the map: same keys, inside the universe, only growing. */
  predicate FollowKept(m0: SetMap, m: SetMap, u: set<string>)
  {
    var ok := m.Keys == m0.Keys && Inside(m, m0.Keys, u) && Grown(m0, m);
    ok
  }

  /** Growth already seen survives further growth. */
  lemma GrewMore(m0: SetMap, m1: SetMap, m2: SetMap)
    requires GrewSomewhere(m0, m1) && Grown(m1, m2)
    ensures GrewSomewhere(m0, m2)
  {
    var k :| k in m0 && k in m1 && m0[k] < m1[k];
    assert k in m2 && m0[k] < m2[k];
  }

  lemma StrictSubsetSize(a: set<string>, b: set<string>)
    requires a <= b && a != b
    ensures |a| < |b|
  {
    var x :| x in b && x !in a;
    var c := b - a;
    assert b == a + c && a * c == {};
    assert x in c && |c| >= 1;
  }

  /** `follow_sets[b] |= add`, reporting whether the set grew. */
  method UnionInto(m0: SetMap, fs: SetMap, b: string, add: set<string>, ghost u: set<string>)
    returns (fs': SetMap, grew: bool)
    requires FollowKept(m0, fs, u) && b in fs && add <= u
    ensures fs' == fs[b := fs[b] + add] && FollowKept(m0, fs', u) && Grown(fs, fs')
    ensures grew ==> GrewSomewhere(m0, fs')
    ensures !grew ==> fs' == fs && add <= fs[b]
  {
    var before := |fs[b]|;
    fs' := fs[b := fs[b] + add];
    grew := |fs'[b]| > before;
    if grew {
      assert fs[b] != fs'[b] && m0[b] <= fs[b] < fs'[b];
    } else {
      if fs[b] + add != fs[b] {
        StrictSubsetSize(fs[b], fs[b] + add);
      }
      assert fs' == fs;
    }
  }

  /**
   * What one occurrence `A -> αBβ` adds to FOLLOW(B): FIRST(β) minus `ε`, and
   * FOLLOW(A) when `ε` is in FIRST(β) (always so when β is empty).
   */
  function FollowAdd(first: SetMap, fs: SetMap, p: Production, i: nat): set<string>
    requires i < |p.right| && p.left in fs
  {
    var beta := FirstSeq(first, p.right[i + 1..]);
    (beta - {Epsilon}) + (if Epsilon in beta then fs[p.left] else {})
  }

  /** Every set of `m` is contained in the set of the same key in `big`. */
  ghost predicate Leq(m: SetMap, big: SetMap)
  {
    forall k :: k in m ==> k in big && m[k] <= big[k]
  }

  /** Every nonterminal occurrence of every production of `ps` satisfies its FOLLOW rule in `big`. */
  ghost predicate ClosedFollow(first: SetMap, big: SetMap, ps: seq<Production>, nts: set<string>)
  {
    forall n :: 0 <= n < |ps| ==> FollowRules(first, big, ps[n], nts)
  }

  /** Going from `m0` to `m` adds nothing that a map satisfying the rules of `p` and lying above `m0` lacks. */
  ghost predicate RulesStayBelow(first: SetMap, m0: SetMap, m: SetMap, p: Production, nts: set<string>)
  {
    forall big :: FollowRules(first, big, p, nts) && Leq(m0, big) ==> Leq(m, big)
  }

  /** Going from `m0` to `m` adds nothing that a map closed under the FOLLOW rules of `ps` and lying above `m0` lacks. */
  ghost predicate FollowStaysBelow(first: SetMap, m0: SetMap, m: SetMap, ps: seq<Production>, nts: set<string>)
  {
    forall big :: ClosedFollow(first, big, ps, nts) && Leq(m0, big) ==> Leq(m, big)
  }

  /** One occurrence's exact step stays below every map that satisfies its rule and lies above the start. */
  lemma FollowAtBelow(first: SetMap, fs: SetMap, p: Production, i: nat, big: SetMap)
    requires i < |p.right| && p.left in fs && p.right[i] in fs
    requires Leq(fs, big) && FollowRule(first, big, p, i)
    ensures Leq(fs[p.right[i] := fs[p.right[i]] + FollowAdd(first, fs, p, i)], big)
  {
  }

  /** Adding one occurrence's step to a production's loop keeps it below every map satisfying the production's rules. */
  lemma OccurrenceStaysBelow(first: SetMap, m0: SetMap, prev: SetMap, fs: SetMap, p: Production, i: nat, nts: set<string>)
    requires i < |p.right| && p.right[i] in nts && p.left in prev && p.right[i] in prev
    requires RulesStayBelow(first, m0, prev, p, nts)
    requires fs == prev[p.right[i] := prev[p.right[i]] + FollowAdd(first, prev, p, i)]
    ensures RulesStayBelow(first, m0, fs, p, nts)
  {
    forall big | FollowRules(first, big, p, nts) && Leq(m0, big) ensures Leq(fs, big) {
      FollowAtBelow(first, prev, p, i, big);
    }
  }

  /** Adding one production's loop to a sweep keeps the sweep below every closed map. */
  lemma ProductionStaysBelow(first: SetMap, m0: SetMap, prev: SetMap, fs: SetMap, ps: seq<Production>, n: nat, nts: set<string>)
    requires n < |ps| && FollowStaysBelow(first, m0, prev, ps, nts) && RulesStayBelow(first, prev, fs, ps[n], nts)
    ensures FollowStaysBelow(first, m0, fs, ps, nts)
  {
  }

  /** Staying below composes along consecutive sweeps. */
  lemma FollowStaysBelowTrans(first: SetMap, m0: SetMap, m1: SetMap, m2: SetMap, ps: seq<Production>, nts: set<string>)
    requires FollowStaysBelow(first, m0, m1, ps, nts) && FollowStaysBelow(first, m1, m2, ps, nts)
    ensures FollowStaysBelow(first, m0, m2, ps, nts)
  {
  }

  /**
   * The body of the `for i, symbol in enumerate(right)` loop of
   * `compute_follow_sets` for a nonterminal `B = right[i]`: FIRST(β) minus
   * `ε` goes into FOLLOW(B), then FOLLOW(A) as well when β is empty or `ε` is
   * in FIRST(β). When nothing grew, the rule for position `i` holds.
   */
  method FollowAt(first: SetMap, m0: SetMap, fs: SetMap, p: Production, i: nat, ghost u: set<string>)
    returns (fs': SetMap, grew: bool)
    requires i < |p.right| && FollowKept(m0, fs, u) && p.left in fs && p.right[i] in fs
    requires Values(first) + {Epsilon} <= u && forall j :: 0 <= j < |p.right| ==> p.right[j] in u
    ensures fs' == fs[p.right[i] := fs[p.right[i]] + FollowAdd(first, fs, p, i)]
    ensures FollowKept(m0, fs', u) && Grown(fs, fs')
    ensures grew ==> GrewSomewhere(m0, fs')
    ensures !grew ==> fs' == fs && FollowRule(first, fs, p, i)
  {
    var left, right, symbol := p.left, p.right, p.right[i];
    var beta := right[i + 1..];
    var firstBeta := FirstSeq(first, beta);
    forall j | 0 <= j < |beta| ensures beta[j] in u {
      assert beta[j] == right[i + 1 + j];
    }
    FirstSeqBound(first, beta, u);
    var m := fs;
    var g := false;
    ghost var add := FollowAdd(first, fs, p, i);
    if beta != [] {
      m, g := UnionInto(m0, m, symbol, firstBeta - {Epsilon}, u);
      assert Epsilon !in firstBeta ==> add == firstBeta - {Epsilon};
      if Epsilon in firstBeta {
        var g2;
        ghost var m1 := m;
        m, g2 := UnionInto(m0, m, symbol, m[left], u);
        if g {
          GrewMore(m0, m1, m);
        }
        g := g || g2;
        assert m[symbol] == fs[symbol] + add;
      }
    } else {
      m, g := UnionInto(m0, m, symbol, m[left], u);
      assert right[i + 1..] == [];
      assert add == fs[left];
    }
    assert m == fs[symbol := fs[symbol] + add];
    fs', grew := m, g;
  }

  /**
   * One production of a FOLLOW sweep: the keys stay, the sets grow inside the
   * universe, `changed` reports growth, and when nothing changed the map is
   * the same and every nonterminal occurrence of the production satisfies its rule.
   */
  method FollowProduction(first: SetMap, m0: SetMap, p: Production, nts: set<string>, ghost u: set<string>)
    returns (m: SetMap, changed: bool)
    requires p.left in m0 && nts <= m0.Keys && Inside(m0, m0.Keys, u)
    requires Values(first) + {Epsilon} <= u && forall i :: 0 <= i < |p.right| ==> p.right[i] in u
    ensures FollowKept(m0, m, u)
    ensures changed ==> GrewSomewhere(m0, m)
    ensures !changed ==> m == m0 && FollowRules(first, m, p, nts)
    ensures RulesStayBelow(first, m0, m, p, nts)
  {
    var right := p.right;
    var fs := m0;
    var grew := false;
    var i := 0;
    while i < |right|
      invariant 0 <= i <= |right| && FollowKept(m0, fs, u)
      invariant grew ==> GrewSomewhere(m0, fs)
      invariant !grew ==> fs == m0 && forall j :: 0 <= j < i && right[j] in nts ==> FollowRule(first, m0, p, j)
      invariant RulesStayBelow(first, m0, fs, p, nts)
    {
      if right[i] in nts {
        ghost var prev := fs;
        var g;
        fs, g := FollowAt(first, m0, fs, p, i, u);
        OccurrenceStaysBelow(first, m0, prev, fs, p, i, nts);
        if grew {
          GrewMore(m0, prev, fs);
        }
        grew := grew || g;
      }
      i := i + 1;
    }
    m, changed := fs, grew;
  }

  /**
   * One sweep of `compute_follow_sets`: the keys stay, the sets grow inside
   * the universe, `changed` reports growth, and when nothing changed every
   * nonterminal occurrence of every production satisfies its rule.
   */
  method FollowSweep(first: SetMap, m0: SetMap, ps: seq<Production>, nts: set<string>, ghost u: set<string>)
    returns (m: SetMap, changed: bool)
    requires LeftsIn(ps, m0) && nts <= m0.Keys && Inside(m0, m0.Keys, u)
    requires Values(first) + {Epsilon} <= u
    requires forall n, i :: 0 <= n < |ps| && 0 <= i < |ps[n].right| ==> ps[n].right[i] in u
    ensures FollowKept(m0, m, u)
    ensures changed ==> GrewSomewhere(m0, m)
    ensures !changed ==> forall n :: 0 <= n < |ps| ==> FollowRules(first, m, ps[n], nts)
    ensures FollowStaysBelow(first, m0, m, ps, nts)
  {
    var fs := m0;
    var grew := false;
    var n := 0;
    while n < |ps|
      invariant 0 <= n <= |ps| && FollowKept(m0, fs, u)
      invariant grew ==> GrewSomewhere(m0, fs)
      invariant !grew ==> fs == m0 && forall j :: 0 <= j < n ==> FollowRules(first, m0, ps[j], nts)
      invariant FollowStaysBelow(first, m0, fs, ps, nts)
    {
      ghost var prev := fs;
      var c;
      fs, c := FollowProduction(first, fs, ps[n], nts, u);
      ProductionStaysBelow(first, m0, prev, fs, ps, n, nts);
      if c {
        ghost var k :| k in prev && k in fs && prev[k] < fs[k];
        assert m0[k] <= prev[k];
        grew := true;
      } else if grew {
        GrewMore(m0, prev, fs);
      }
      n := n + 1;
    }
    m, changed := fs, grew;
  }

  /** The FIRST set of a sequence draws only on the map's sets, the sequence's symbols and `ε`. */
  lemma {:induction false} FirstSeqBound(m: SetMap, xs: seq<string>, u: set<string>)
    requires Values(m) + {Epsilon} <= u
    requires forall i :: 0 <= i < |xs| ==> xs[i] in u
    ensures FirstSeq(m, xs) <= u
    decreases |xs|
  {
    if xs != [] {
      if xs[0] in m {
        forall x | x in m[xs[0]] ensures x in Values(m) {
        }
      }
      FirstSeqBound(m, xs[1..], u);
    }
  }

  /** Every set of `m` lies in `Values(m)`. */
  lemma ValuesCover(m: SetMap, u: set<string>)
    requires Values(m) <= u
    ensures forall k :: k in m ==> m[k] <= u
  {
    forall k, x | k in m && x in m[k] ensures x in u {
      assert x in Values(m);
    }
  }

  /** Every right-side symbol lies in `RightSymbols`. */
  lemma RightSymbolsCover(ps: seq<Production>)
    ensures forall i, j :: 0 <= i < |ps| && 0 <= j < |ps[i].right| ==> ps[i].right[j] in RightSymbols(ps)
  {
  }

  /** The symbols the FIRST loop may read or enter: the initial keys and every right-side symbol. */
  function FirstKeys(ps: seq<Production>, m1: SetMap): set<string>
  {
    m1.Keys + RightSymbols(ps)
  }

  /**
   * The fixed-point loop of `compute_first_sets`, from the initialised map:
   * sweeps run until one adds nothing. Every production's rule then holds,
   * the set of a symbol that is no left side is as it started, and the
   * result is the least such map: it lies below every map that satisfies
   * every rule and lies above the start.
   */
  method FirstFixpoint(ps: seq<Production>, m1: SetMap) returns (m: SetMap)
    requires LeftsIn(ps, m1)
    ensures Grown(m1, m)
    ensures forall k :: k in m1 && !IsLeft(ps, k) ==> m[k] == m1[k]
    ensures forall i :: 0 <= i < |ps| ==> FirstRule(m, ps[i])
    ensures m.Keys <= FirstKeys(ps, m1) && StaysBelow(m1, m, ps, FirstKeys(ps, m1))
  {
    ghost var keys := FirstKeys(ps, m1);
    ghost var u := Values(m1) + RightSymbols(ps) + {Epsilon};
    ValuesCover(m1, u);
    RightSymbolsCover(ps);
    m := m1;
    var changed := true;
    while changed
      invariant LeftsIn(ps, m) && Inside(m, keys, u) && Grown(m1, m)
      invariant forall k :: k in m1 && !IsLeft(ps, k) ==> m[k] == m1[k]
      invariant !changed ==> forall i :: 0 <= i < |ps| ==> FirstRule(m, ps[i])
      invariant StaysBelow(m1, m, ps, keys)
      decreases Product(keys, u) - Pairs(m), if changed then 1 else 0
    {
      ghost var prev := m;
      m, changed := FirstSweep(m, ps, keys, u);
      StaysBelowTrans(m1, prev, m, ps, keys);
      if changed {
        Progress(prev, m, keys, u);
      }
    }
  }

  /** The map `compute_first_sets` starts from: `{t}` for each terminal, then `{}` for each nonterminal. */
  function FirstInit(m0: SetMap, terminals: set<string>, nts: set<string>): (r: SetMap)
    ensures nts <= r.Keys && forall t :: t in terminals && t !in nts ==> t in r && r[t] == {t}
  {
    m0 + (map t | t in terminals :: {t}) + (map n | n in nts :: {})
  }

  /**
   * `compute_first_sets` on values: initialisation, then the fixed point.
   * The result satisfies every FIRST rule and is the least map that does and
   * lies above the initial one.
   */
  method FirstSets(ps: seq<Production>, terminals: set<string>, nts: set<string>, m0: SetMap) returns (m: SetMap)
    requires forall i :: 0 <= i < |ps| ==> ps[i].left in nts
    ensures forall i :: 0 <= i < |ps| ==> FirstRule(m, ps[i])
    ensures forall t :: t in terminals && t !in nts ==> t in m && m[t] == {t}
    ensures nts <= m.Keys
    ensures LeastFirstSets(ps, terminals, nts, m0, m)
  {
    var m1 := m0;
    m1 := m1 + map t | t in terminals :: {t};
    m1 := m1 + map n | n in nts :: {};
    assert m1 == FirstInit(m0, terminals, nts);
    m := FirstFixpoint(ps, m1);
    forall t | t in terminals && t !in nts ensures t in m && m[t] == {t} {
      assert !IsLeft(ps, t);
    }
    LeastFirst(ps, m1, m);
  }

  /** Below every closed map: each set of the result, read from a closed map above the start, is contained there. */
  lemma LeastFirst(ps: seq<Production>, m1: SetMap, m: SetMap)
    requires StaysBelow(m1, m, ps, FirstKeys(ps, m1)) && m.Keys <= FirstKeys(ps, m1)
    ensures forall big :: ClosedFirst(big, ps) && Below(m1, big, FirstKeys(ps, m1)) ==> forall k :: k in m ==> m[k] <= FirstOf(big, k)
  {
    forall big | ClosedFirst(big, ps) && Below(m1, big, FirstKeys(ps, m1))
      ensures forall k :: k in m ==> m[k] <= FirstOf(big, k)
    {
      forall k | k in m ensures m[k] <= FirstOf(big, k) {
        assert FirstOf(m, k) == m[k];
      }
    }
  }

  /**
   * The fixed-point loop of `compute_follow_sets`, from the initialised map:
   * sweeps run until one adds nothing, every FOLLOW rule then holds, and the
   * result is the least such map above the start.
   */
  method FollowFixpoint(ps: seq<Production>, nts: set<string>, first: SetMap, m1: SetMap) returns (m: SetMap)
    requires LeftsIn(ps, m1) && nts <= m1.Keys
    ensures Grown(m1, m) && m.Keys == m1.Keys
    ensures forall n :: 0 <= n < |ps| ==> FollowRules(first, m, ps[n], nts)
    ensures FollowStaysBelow(first, m1, m, ps, nts)
  {
    ghost var u := Values(m1) + Values(first) + RightSymbols(ps) + {Epsilon};
    ValuesCover(m1, u);
    RightSymbolsCover(ps);
    m := m1;
    var changed := true;
    while changed
      invariant FollowKept(m1, m, u)
      invariant !changed ==> forall n :: 0 <= n < |ps| ==> FollowRules(first, m, ps[n], nts)
      invariant FollowStaysBelow(first, m1, m, ps, nts)
      decreases Product(m1.Keys, u) - Pairs(m), if changed then 1 else 0
    {
      ghost var prev := m;
      m, changed := FollowSweep(first, m, ps, nts, u);
      FollowStaysBelowTrans(first, m1, prev, m, ps, nts);
      if changed {
        Progress(prev, m, m1.Keys, u);
      }
    }
  }

  /** The map `compute_follow_sets` starts from: `{}` for each nonterminal, then `$` added to FOLLOW(start). */
  function FollowInit(m0: SetMap, nts: set<string>, start: string): (r: SetMap)
    requires start in nts
    ensures nts <= r.Keys && r[start] == {"$"}
  {
    var m1 := m0 + map n | n in nts :: {};
    m1[start := m1[start] + {"$"}]
  }

  /**
   * `m` lies below every map that is closed under the FIRST rules of `ps`
   * and lies above `FirstInit(m0, terminals, nts)`: nothing in it is forced
   * by anything but the rules and the initial sets.
   */
  ghost predicate LeastFirstSets(ps: seq<Production>, terminals: set<string>, nts: set<string>, m0: SetMap, m: SetMap)
  {
    var m1 := FirstInit(m0, terminals, nts);
    forall big :: ClosedFirst(big, ps) && Below(m1, big, FirstKeys(ps, m1)) ==> forall k :: k in m ==> m[k] <= FirstOf(big, k)
  }

  /** `m` lies below every map that is closed under the FOLLOW rules of `ps` and lies above `FollowInit(m0, nts, start)`. */
  ghost predicate LeastFollowSets(first: SetMap, ps: seq<Production>, nts: set<string>, start: string, m0: SetMap, m: SetMap)
    requires start in nts
  {
    forall big :: ClosedFollow(first, big, ps, nts) && Leq(FollowInit(m0, nts, start), big) ==> Leq(m, big)
  }

  /**
   * `compute_follow_sets` on values: initialisation, `$` for the start
   * symbol, then the fixed point. The result satisfies every FOLLOW rule and
   * is the least map that does and lies above the initial one.
   */
  method FollowSets(ps: seq<Production>, nts: set<string>, start: string, first: SetMap, m0: SetMap)
    returns (m: SetMap)
    requires forall i :: 0 <= i < |ps| ==> ps[i].left in nts
    requires start in nts
    ensures nts <= m.Keys && "$" in m[start]
    ensures forall n :: 0 <= n < |ps| ==> FollowRules(first, m, ps[n], nts)
    ensures LeastFollowSets(first, ps, nts, start, m0, m)
  {
    var m1 := m0;
    m1 := m1 + map n | n in nts :: {};
    m1 := m1[start := m1[start] + {"$"}];
    assert m1 == FollowInit(m0, nts, start);
    m := FollowFixpoint(ps, nts, first, m1);
  }

  /** The FIRST/FOLLOW calculator object. */
  class FirstFollowCalculator {
    const grammar: Grammar
    var firstSets: SetMap
    var followSets: SetMap

    constructor (grammar: Grammar)
      ensures this.grammar == grammar && firstSets == map[] && followSets == map[]
    {
      this.grammar := grammar;
      firstSets := map[];
      followSets := map[];
    }

    /** `first_of_sequence`, on the current FIRST sets. */
    function FirstOfSequence(sequence: seq<string>): set<string>
      reads this
    {
      FirstSeq(firstSets, sequence)
    }

    /**
     * `compute_first_sets`: each terminal's set becomes `{t}`, then each
     * nonterminal's set becomes empty, and sweeps run until one adds nothing.
     * On return every production's FIRST rule holds, a terminal that is not
     * also a nonterminal keeps `{t}`, every nonterminal has a set, and the
     * sets are the least ones with these properties.
     */
    method ComputeFirstSets()
      requires forall i :: 0 <= i < |grammar.productions| ==> grammar.productions[i].left in grammar.nonTerminals
      modifies this
      ensures forall i :: 0 <= i < |grammar.productions| ==> FirstRule(firstSets, grammar.productions[i])
      ensures forall t :: t in grammar.terminals && t !in grammar.nonTerminals ==> t in firstSets && firstSets[t] == {t}
      ensures grammar.nonTerminals <= firstSets.Keys
      ensures LeastFirstSets(grammar.productions, grammar.terminals, grammar.nonTerminals, old(firstSets), firstSets)
      ensures followSets == old(followSets)
    {
      firstSets := FirstSets(grammar.productions, grammar.terminals, grammar.nonTerminals, firstSets);
    }

    /**
     * `compute_follow_sets`: each nonterminal's set becomes empty, `$` goes
     * into FOLLOW of the start symbol, and sweeps run until one adds nothing.
     * On return `$` is in FOLLOW(start), every FOLLOW rule holds for every
     * nonterminal occurrence in every production, and the sets are the least
     * ones with these properties.
     */
    method ComputeFollowSets()
      requires forall i :: 0 <= i < |grammar.productions| ==> grammar.productions[i].left in grammar.nonTerminals
      requires grammar.startSymbol in grammar.nonTerminals
      modifies this
      ensures grammar.nonTerminals <= followSets.Keys && "$" in followSets[grammar.startSymbol]
      ensures forall n :: 0 <= n < |grammar.productions| ==>
                FollowRules(firstSets, followSets, grammar.productions[n], grammar.nonTerminals)
      ensures LeastFollowSets(firstSets, grammar.productions, grammar.nonTerminals, grammar.startSymbol, old(followSets),
                              followSets)
      ensures firstSets == old(firstSets)
    {
      followSets := FollowSets(grammar.productions, grammar.nonTerminals, grammar.startSymbol, firstSets, followSets);
    }
  }
}
