/**
 * Counting facts about finite sets, used as termination measures by the
 * worklist algorithms: every family of distinct subsets of a finite universe
 * is finite, so a list of pairwise distinct item sets cannot grow forever.
 */
module FiniteSets {

  function Pow2(n: nat): (r: nat)
    ensures r >= 1
  {
    if n == 0 then 1 else 2 * Pow2(n - 1)
  }

  /** Removing an element that every member contains is injective on a family. */
  lemma {:induction false} StripElementSize<T>(family: set<set<T>>, x: T)
    requires forall s :: s in family ==> x in s
    ensures |set s | s in family :: s - {x}| == |family|
  {
    if family != {} {
      var s0 :| s0 in family;
      var rest := family - {s0};
      StripElementSize(rest, x);
      var image := set s | s in family :: s - {x};
      var restImage := set s | s in rest :: s - {x};
      assert image == restImage + {s0 - {x}};
      forall s1 | s1 in rest ensures s1 - {x} != s0 - {x} {
        assert s1 == (s1 - {x}) + {x};
        assert s0 == (s0 - {x}) + {x};
      }
    }
  }

  /** A family of distinct subsets of `u` has at most 2^|u| members. */
  lemma {:induction false} SubsetFamilyBound<T>(family: set<set<T>>, u: set<T>)
    requires forall s :: s in family ==> s <= u
    ensures |family| <= Pow2(|u|)
    decreases |u|
  {
    if u == {} {
      if family != {} {
        var s :| s in family;
        forall t | t in family ensures t == s {
          assert t <= {} && s <= {};
        }
        assert family == {s};
      }
    } else {
      var x :| x in u;
      var rest := u - {x};
      var without := set s | s in family && x !in s;
      var within := set s | s in family && x in s;
      var stripped := set s | s in within :: s - {x};
      SplitFamily(family, u, x);
      SubsetFamilyBound(without, rest);
      SubsetFamilyBound(stripped, rest);
      StripElementSize(within, x);
    }
  }

  /** Splitting a family of subsets of `u` on whether its members contain `x`. */
  lemma SplitFamily<T>(family: set<set<T>>, u: set<T>, x: T)
    requires forall s :: s in family ==> s <= u
    ensures var without := set s | s in family && x !in s;
      var within := set s | s in family && x in s;
      && |family| == |without| + |within|
      && (forall s :: s in without ==> s <= u - {x})
      && (forall s :: s in within ==> s - {x} <= u - {x})
  {
    var without := set s | s in family && x !in s;
    var within := set s | s in family && x in s;
    assert family == without + within;
    assert without * within == {};
  }

  /** Pairwise distinct entries of a sequence of subsets of `u` number at most 2^|u|. */
  lemma DistinctSubsetsBound<T>(ss: seq<set<T>>, u: set<T>)
    requires forall i, j :: 0 <= i < j < |ss| ==> ss[i] != ss[j]
    requires forall i :: 0 <= i < |ss| ==> ss[i] <= u
    ensures |ss| <= Pow2(|u|)
  {
    var family := set i | 0 <= i < |ss| :: ss[i];
    DistinctElementsSize(ss);
    SubsetFamilyBound(family, u);
  }

  /** A sequence without repetitions has as many elements as the set of its elements. */
  lemma {:induction false} DistinctElementsSize<T>(ss: seq<T>)
    requires forall i, j :: 0 <= i < j < |ss| ==> ss[i] != ss[j]
    ensures |set i | 0 <= i < |ss| :: ss[i]| == |ss|
  {
    if ss != [] {
      var n := |ss| - 1;
      DistinctElementsSize(ss[..n]);
      var all := set i | 0 <= i < |ss| :: ss[i];
      var init := set i | 0 <= i < n :: ss[..n][i];
      assert all == init + {ss[n]};
      assert ss[n] !in init;
    }
  }

  /** A set with no element is the empty set. */
  lemma EmptyWithoutElements<T>(s: set<T>)
    ensures (forall z :: z !in s) ==> s == {}
  {
    if forall z :: z !in s {
      var e: set<T> := {};
      assert forall z :: z in s <==> z in e;
      assert s == e;
    }
  }

  /** Some element of a non-empty set; which one is left open, as Python's set iteration order is. */
  method Choose<T>(s: set<T>) returns (x: T)
    requires s != {}
    ensures x in s
  {
    EmptyWithoutElements(s);
    x :| x in s;
  }

  /** Growing a subset of `u` shrinks what is left of `u`. */
  lemma ShrinkingRest<T>(u: set<T>, c0: set<T>, c: set<T>)
    requires c0 <= c <= u && c0 != c
    ensures |u - c| < |u - c0|
  {
    var x :| x in c && x !in c0;
    assert u - c0 == (u - c) + (c - c0) && (u - c) !! (c - c0);
    assert x in c - c0;
  }

  /** `list(s)`: the elements of `s`, each once, in some order. */
  method ToSeq<T>(s: set<T>) returns (xs: seq<T>)
    ensures forall x :: x in xs <==> x in s
    ensures |xs| == |s|
  {
    xs := [];
    var todo := s;
    while todo != {}
      invariant forall x :: x in xs <==> x in s && x !in todo
      invariant todo <= s && |xs| + |todo| == |s|
      decreases |todo|
    {
      var x := Choose(todo);
      xs := xs + [x];
      todo := todo - {x};
    }
  }
}
