/**
 * Counting over one document's assignment map (token -> one topic slot per
 * occurrence). The map is walked in ascending token order, as std::map
 * iterates it.
 */
module Slots {

  /** Strictly ascending, hence without repeats. */
  predicate Increasing(ks: seq<nat>)
  {
    forall i, j :: 0 <= i < j < |ks| ==> ks[i] < ks[j]
  }

  /** A non-empty finite set of naturals has a least element. */
  lemma {:induction false} LeastOf(s: set<nat>) returns (k: nat)
    requires s != {}
    ensures k in s && forall j :: j in s ==> k <= j
    decreases |s|
  {
    var x :| x in s;
    var rest := s - {x};
    if rest == {} {
      k := x;
      forall j | j in s
        ensures x <= j
      {
        assert j !in rest;
      }
    } else {
      var y := LeastOf(rest);
      k := if x < y then x else y;
      forall j | j in s
        ensures k <= j
      {
        if j != x {
          assert j in rest;
        }
      }
    }
  }

  lemma MinExists(s: set<nat>)
    requires s != {}
    ensures exists k :: k in s && forall j :: j in s ==> k <= j
  {
    var k := LeastOf(s);
    assert k in s && forall j :: j in s ==> k <= j;
  }

  /** The least element of a non-empty set. */
  function MinKey(s: set<nat>): (k: nat)
    requires s != {}
    ensures k in s && forall j :: j in s ==> k <= j
  {
    MinExists(s);
    var k :| k in s && forall j :: j in s ==> k <= j;
    k
  }

  /** A set of keys in ascending order, the order in which std::map visits its keys. */
  function SortedKeys(s: set<nat>): (ks: seq<nat>)
    ensures Increasing(ks)
    ensures forall k :: k in s <==> k in ks
    decreases |s|
  {
    if s == {} then []
    else
      var k := MinKey(s);
      var tail := SortedKeys(s - {k});
      assert forall i :: 0 <= i < |tail| ==> tail[i] in s - {k};
      [k] + tail
  }

  /** Total of bow's counts over the keys ks. */
  function KeySum(ks: seq<nat>, bow: map<nat, nat>): nat
    requires forall k :: k in ks ==> k in bow
  {
    if ks == [] then 0 else KeySum(ks[..|ks| - 1], bow) + bow[ks[|ks| - 1]]
  }

  /** Keys whose counts are all zero add up to zero. */
  lemma {:induction false} KeySumZero(ks: seq<nat>, bow: map<nat, nat>)
    requires forall k :: k in ks ==> k in bow && bow[k] == 0
    ensures KeySum(ks, bow) == 0
  {
    if ks != [] {
      KeySumZero(ks[..|ks| - 1], bow);
    }
  }

  /** Number of word occurrences in a bag of words. */
  function BagSize(bow: map<nat, nat>): nat
  {
    KeySum(SortedKeys(bow.Keys), bow)
  }

  /** Number of slots of s holding a topic in [lo, hi). */
  function CountIn(s: seq<nat>, lo: nat, hi: nat): nat
  {
    if s == [] then 0
    else CountIn(s[..|s| - 1], lo, hi) + (if lo <= s[|s| - 1] < hi then 1 else 0)
  }

  /** Number of slots, over the tokens ks of an assignment map, holding a topic in [lo, hi). */
  function DocCountIn(ks: seq<nat>, asg: map<nat, seq<nat>>, lo: nat, hi: nat): nat
    requires forall k :: k in ks ==> k in asg
  {
    if ks == [] then 0
    else DocCountIn(ks[..|ks| - 1], asg, lo, hi) + CountIn(asg[ks[|ks| - 1]], lo, hi)
  }

  lemma {:induction false} CountInUpdate(s: seq<nat>, i: nat, x: nat, lo: nat, hi: nat)
    requires i < |s|
    ensures CountIn(s[i := x], lo, hi) ==
      CountIn(s, lo, hi) - (if lo <= s[i] < hi then 1 else 0) + (if lo <= x < hi then 1 else 0)
  {
    var n := |s| - 1;
    if i == n {
      assert s[i := x][..n] == s[..n];
    } else {
      assert s[i := x][..n] == s[..n][i := x];
      CountInUpdate(s[..n], i, x, lo, hi);
    }
  }

  lemma {:induction false} CountInHeld(s: seq<nat>, i: nat, lo: nat, hi: nat)
    requires i < |s| && lo <= s[i] < hi
    ensures CountIn(s, lo, hi) >= 1
  {
    var n := |s| - 1;
    if i < n {
      CountInHeld(s[..n], i, lo, hi);
    }
  }

  /** When every slot is in [lo, hi) all of them count; when none is, none does. */
  lemma {:induction false} CountInAllOrNone(s: seq<nat>, lo: nat, hi: nat)
    ensures (forall i :: 0 <= i < |s| ==> lo <= s[i] < hi) ==> CountIn(s, lo, hi) == |s|
    ensures (forall i :: 0 <= i < |s| ==> !(lo <= s[i] < hi)) ==> CountIn(s, lo, hi) == 0
  {
    if s != [] {
      CountInAllOrNone(s[..|s| - 1], lo, hi);
    }
  }

  /** Changing the slots of a token that is not among ks leaves the count over ks alone. */
  lemma {:induction false} DocCountInOther(ks: seq<nat>, asg: map<nat, seq<nat>>, k: nat, s: seq<nat>, lo: nat, hi: nat)
    requires forall j :: j in ks ==> j in asg
    requires k !in ks
    ensures DocCountIn(ks, asg[k := s], lo, hi) == DocCountIn(ks, asg, lo, hi)
  {
    if ks != [] {
      DocCountInOther(ks[..|ks| - 1], asg, k, s, lo, hi);
    }
  }

  /** Changing the slots of one token of ks changes the count by that token's difference. */
  lemma {:induction false} DocCountInUpdate(ks: seq<nat>, asg: map<nat, seq<nat>>, k: nat, s: seq<nat>, lo: nat, hi: nat)
    requires forall j :: j in ks ==> j in asg
    requires Increasing(ks) && k in ks
    ensures DocCountIn(ks, asg[k := s], lo, hi) == DocCountIn(ks, asg, lo, hi) - CountIn(asg[k], lo, hi) + CountIn(s, lo, hi)
  {
    var n := |ks| - 1;
    assert Increasing(ks[..n]);
    if ks[n] == k {
      assert k !in ks[..n];
      DocCountInOther(ks[..n], asg, k, s, lo, hi);
    } else {
      assert k in ks[..n];
      DocCountInUpdate(ks[..n], asg, k, s, lo, hi);
    }
  }

  /** The document-wide count is at least the count of any one of its tokens. */
  lemma {:induction false} DocCountInAtLeast(ks: seq<nat>, asg: map<nat, seq<nat>>, k: nat, lo: nat, hi: nat)
    requires forall j :: j in ks ==> j in asg
    requires k in ks
    ensures DocCountIn(ks, asg, lo, hi) >= CountIn(asg[k], lo, hi)
  {
    var n := |ks| - 1;
    if ks[n] != k {
      assert k in ks[..n];
      DocCountInAtLeast(ks[..n], asg, k, lo, hi);
    }
  }

  /**
   * When every slot is in [lo, hi) the document count is the number of
   * occurrences; when none is, it is zero.
   */
  lemma {:induction false} DocCountInAllOrNone(ks: seq<nat>, asg: map<nat, seq<nat>>, bow: map<nat, nat>, lo: nat, hi: nat)
    requires forall j :: j in ks ==> j in asg && j in bow && |asg[j]| == bow[j]
    ensures (forall j, i :: j in ks && 0 <= i < |asg[j]| ==> lo <= asg[j][i] < hi) ==>
      DocCountIn(ks, asg, lo, hi) == KeySum(ks, bow)
    ensures (forall j, i :: j in ks && 0 <= i < |asg[j]| ==> !(lo <= asg[j][i] < hi)) ==>
      DocCountIn(ks, asg, lo, hi) == 0
  {
    if ks != [] {
      var n := |ks| - 1;
      DocCountInAllOrNone(ks[..n], asg, bow, lo, hi);
      CountInAllOrNone(asg[ks[n]], lo, hi);
    }
  }

  /** The elements from i on are element i followed by the elements after it. */
  lemma SuffixHead(ks: seq<nat>, i: nat)
    requires i < |ks|
    ensures ks[i..] == [ks[i]] + ks[i + 1..]
  {
  }

  /** The keys from i on are key i followed by the keys after it, none of which repeats key i. */
  lemma SuffixCons(ks: seq<nat>, i: nat)
    requires Increasing(ks) && i < |ks|
    ensures ks[i..] == [ks[i]] + ks[i + 1..] && ks[i] !in ks[i + 1..]
  {
    assert ks[i..] == [ks[i]] + ks[i + 1..];
    forall j | i + 1 <= j < |ks|
      ensures ks[j] != ks[i]
    {
    }
  }

  /** Total of bow's counts over the keys ks[i..], added front to back. */
  function KeySumFrom(ks: seq<nat>, i: nat, bow: map<nat, nat>): nat
    requires forall k :: k in ks ==> k in bow
    decreases |ks| - i
  {
    if i >= |ks| then 0 else bow[ks[i]] + KeySumFrom(ks, i + 1, bow)
  }

  /** The keys before i and the keys from i on make up the whole total. */
  lemma {:induction false} KeySumSplit(ks: seq<nat>, i: nat, bow: map<nat, nat>)
    requires forall k :: k in ks ==> k in bow
    requires i <= |ks|
    ensures KeySum(ks[..i], bow) + KeySumFrom(ks, i, bow) == KeySum(ks, bow)
    decreases |ks| - i
  {
    if i == |ks| {
      assert ks[..i] == ks;
    } else {
      assert ks[..i + 1][..i] == ks[..i];
      KeySumSplit(ks, i + 1, bow);
    }
  }

  /** The bag's size, added front to back over its keys in ascending order. */
  lemma BagSizeFrom(bow: map<nat, nat>)
    ensures BagSize(bow) == KeySumFrom(SortedKeys(bow.Keys), 0, bow)
  {
    var ks := SortedKeys(bow.Keys);
    KeySumSplit(ks, 0, bow);
    assert ks[..0] == [];
  }

  /** Number of positions at which slots a and c differ. */
  function Differ(a: seq<nat>, c: seq<nat>): nat
    requires |a| == |c|
  {
    if a == [] then 0
    else Differ(a[..|a| - 1], c[..|c| - 1]) + (if a[|a| - 1] != c[|c| - 1] then 1 else 0)
  }

  lemma {:induction false} DifferUpdate(a: seq<nat>, c: seq<nat>, i: nat, x: nat)
    requires |a| == |c| && i < |a|
    ensures Differ(a[i := x], c) ==
      Differ(a, c) - (if a[i] != c[i] then 1 else 0) + (if x != c[i] then 1 else 0)
  {
    var n := |a| - 1;
    if i == n {
      assert a[i := x][..n] == a[..n];
    } else {
      assert a[i := x][..n] == a[..n][i := x];
      DifferUpdate(a[..n], c[..n], i, x);
    }
  }

  lemma {:induction false} DifferSelf(a: seq<nat>)
    ensures Differ(a, a) == 0
  {
    if a != [] {
      DifferSelf(a[..|a| - 1]);
    }
  }

  /**
   * At most one difference per position; none exactly when the slots are
   * equal, and one per position when they differ everywhere.
   */
  lemma {:induction false} DifferFacts(a: seq<nat>, c: seq<nat>)
    requires |a| == |c|
    ensures Differ(a, c) <= |a|
    ensures Differ(a, c) == 0 <==> a == c
    ensures (forall i :: 0 <= i < |a| ==> a[i] != c[i]) ==> Differ(a, c) == |a|
  {
    if a != [] {
      var n := |a| - 1;
      DifferFacts(a[..n], c[..n]);
      assert a == a[..n] + [a[n]] && c == c[..n] + [c[n]];
    }
  }

  /** Slots changed over the tokens ks[i..] between assignment maps a and c. */
  function ChangedFrom(ks: seq<nat>, i: nat, a: map<nat, seq<nat>>, c: map<nat, seq<nat>>): nat
    requires forall k :: k in ks ==> k in a && k in c && |a[k]| == |c[k]|
    decreases |ks| - i
  {
    if i >= |ks| then 0 else Differ(a[ks[i]], c[ks[i]]) + ChangedFrom(ks, i + 1, a, c)
  }

  /** ChangedFrom reads a only at the tokens ks[i..]. */
  lemma {:induction false} ChangedFromAgree(ks: seq<nat>, i: nat, a: map<nat, seq<nat>>, a': map<nat, seq<nat>>,
                                            c: map<nat, seq<nat>>)
    requires forall k :: k in ks ==> k in a && k in c && |a[k]| == |c[k]|
    requires forall k :: k in ks ==> k in a' && |a'[k]| == |c[k]|
    requires forall j :: i <= j < |ks| ==> a[ks[j]] == a'[ks[j]]
    ensures ChangedFrom(ks, i, a, c) == ChangedFrom(ks, i, a', c)
    decreases |ks| - i
  {
    if i < |ks| {
      ChangedFromAgree(ks, i + 1, a, a', c);
    }
  }

  /**
   * At most one change per slot; none exactly when every token of ks[i..]
   * keeps its slots, and one per slot when every slot differs.
   */
  lemma {:induction false} ChangedFromFacts(ks: seq<nat>, i: nat, a: map<nat, seq<nat>>, c: map<nat, seq<nat>>,
                                            bow: map<nat, nat>)
    requires forall k :: k in ks ==> k in a && k in c && k in bow && |a[k]| == bow[k] && |c[k]| == bow[k]
    ensures ChangedFrom(ks, i, a, c) <= KeySumFrom(ks, i, bow)
    ensures ChangedFrom(ks, i, a, c) == 0 <==> forall j :: i <= j < |ks| ==> a[ks[j]] == c[ks[j]]
    ensures (forall j, x :: i <= j < |ks| && 0 <= x < |a[ks[j]]| ==> a[ks[j]][x] != c[ks[j]][x]) ==>
      ChangedFrom(ks, i, a, c) == KeySumFrom(ks, i, bow)
    decreases |ks| - i
  {
    if i < |ks| {
      DifferFacts(a[ks[i]], c[ks[i]]);
      ChangedFromFacts(ks, i + 1, a, c, bow);
    }
  }
}
