/** Sets of message IDs listed in ascending order, and the merge of two such lists. */
module Ascending {

  ghost predicate Inc(s: seq<nat>) {
    forall i, j :: 0 <= i < j < |s| ==> s[i] < s[j]
  }

  ghost function Elems(s: seq<nat>): set<nat> {
    set x | x in s
  }

  lemma ElemsConcat(a: seq<nat>, b: seq<nat>)
    ensures Elems(a + b) == Elems(a) + Elems(b)
  {
    forall x ensures x in Elems(a + b) <==> x in Elems(a) + Elems(b) {
      assert x in a + b <==> x in a || x in b;
    }
  }

  lemma NoElems(s: seq<nat>)
    ensures Elems(s) == {} <==> s == []
  {
    if s != [] {
      assert s[0] in Elems(s);
    }
  }

  lemma ElemsCons(x: nat, s: seq<nat>)
    ensures Elems([x] + s) == {x} + Elems(s)
  {
    ElemsConcat([x], s);
  }

  ghost predicate Least(k: nat, ks: set<nat>) {
    k in ks && forall j :: j in ks ==> k <= j
  }

  lemma {:induction false} FindLeast(ks: set<nat>) returns (k: nat)
    requires ks != {}
    ensures Least(k, ks)
  {
    var x :| x in ks;
    k := x;
    if ks != {x} {
      var y := FindLeast(ks - {x});
      if y < x { k := y; }
      assert forall j :: j in ks ==> j == x || j in ks - {x};
    }
  }

  lemma MinExists(ks: set<nat>)
    requires ks != {}
    ensures exists k :: k in ks && forall j :: j in ks ==> k <= j
  {
    var k := FindLeast(ks);
  }

  function Min(ks: set<nat>): (k: nat)
    requires ks != {}
    ensures k in ks && forall j :: j in ks ==> k <= j
  {
    MinExists(ks);
    var k :| k in ks && forall j :: j in ks ==> k <= j;
    k
  }

  function Sorted(ks: set<nat>): seq<nat> {
    if ks == {} then [] else [Min(ks)] + Sorted(ks - {Min(ks)})
  }

  lemma LeastFirst(ks: set<nat>, k: nat, rest: seq<nat>)
    requires Least(k, ks) && Inc(rest) && Elems(rest) == ks - {k}
    ensures Inc([k] + rest) && Elems([k] + rest) == ks
  {
    assert forall y :: y in Elems(rest) ==> y in ks - {k};
    IncCons(k, rest);
    ElemsCons(k, rest);
    assert ks == {k} + (ks - {k});
  }

  lemma {:induction false} SortedProps(ks: set<nat>)
    ensures Inc(Sorted(ks)) && Elems(Sorted(ks)) == ks && |Sorted(ks)| == |ks|
  {
    if ks != {} {
      var k := Min(ks);
      SortedProps(ks - {k});
      LeastFirst(ks, k, Sorted(ks - {k}));
    }
  }

  lemma TailElems(s: seq<nat>)
    requires Inc(s) && s != []
    ensures Inc(s[1..]) && Elems(s[1..]) == Elems(s) - {s[0]}
  {
    assert s == [s[0]] + s[1..];
  }

  /** Only one ascending list has a given set of elements. */
  lemma {:induction false} IncUnique(a: seq<nat>, b: seq<nat>)
    requires Inc(a) && Inc(b) && Elems(a) == Elems(b)
    ensures a == b
    decreases |a|
  {
    if a == [] {
      NoElems(a);
      NoElems(b);
    } else {
      assert a[0] in Elems(a);
      var i :| 0 <= i < |b| && b[i] == a[0];
      assert b[0] in Elems(b);
      var j :| 0 <= j < |a| && a[j] == b[0];
      TailElems(a);
      TailElems(b);
      IncUnique(a[1..], b[1..]);
      assert a == [a[0]] + a[1..] && b == [b[0]] + b[1..];
    }
  }

  lemma SortedIs(s: seq<nat>, ks: set<nat>)
    requires Inc(s) && Elems(s) == ks
    ensures Sorted(ks) == s && |s| == |ks|
  {
    SortedProps(ks);
    IncUnique(s, Sorted(ks));
  }

  /** Each of the first k is smaller than all that follow it. */
  ghost predicate LeastAhead(s: seq<nat>, k: nat) {
    forall i, j :: 0 <= i < j < |s| && i < k ==> s[i] < s[j]
  }

  ghost predicate Distinct(s: seq<nat>) {
    forall i, j :: 0 <= i < j < |s| ==> s[i] != s[j]
  }

  lemma {:induction false} RestElems(s: seq<nat>)
    requires Distinct(s) && s != []
    ensures Distinct(s[1..]) && Elems(s[1..]) == Elems(s) - {s[0]}
  {
    ElemsCons(s[0], s[1..]);
    assert s == [s[0]] + s[1..];
    assert s[0] !in s[1..];
  }

  lemma {:induction false} DistinctSize(s: seq<nat>)
    requires Distinct(s)
    ensures |Sorted(Elems(s))| == |s|
  {
    SortedProps(Elems(s));
    if s != [] {
      RestElems(s);
      DistinctSize(s[1..]);
      SortedProps(Elems(s[1..]));
      assert s[0] in Elems(s);
    } else {
      NoElems(s);
    }
  }

  /** A list without repetition starts as the sorted one does exactly when its first ones are the least, in order. */
  lemma {:induction false} SortedStartIff(s: seq<nat>, k: nat)
    requires k <= |s| && Distinct(s)
    ensures |Sorted(Elems(s))| == |s|
    ensures Sorted(Elems(s))[..k] == s[..k] <==> LeastAhead(s, k)
    decreases k
  {
    DistinctSize(s);
    if k > 0 {
      assert s[0] in Elems(s);
      if s[0] == Min(Elems(s)) {
        RestElems(s);
        SortedStartIff(s[1..], k - 1);
        StartsAlike(s[0], Sorted(Elems(s[1..])), s, k);
        HeadAhead(s, k);
      } else {
        var j :| 0 <= j < |s| && s[j] == Min(Elems(s));
        assert s[j] < s[0];
        assert Sorted(Elems(s))[..k][0] == s[j];
      }
    }
  }

  lemma StartsAlike(x: nat, rest: seq<nat>, s: seq<nat>, k: nat)
    requires 0 < k <= |s| == |rest| + 1 && s[0] == x
    ensures ([x] + rest)[..k] == s[..k] <==> rest[..k - 1] == s[1..][..k - 1]
  {
    assert ([x] + rest)[..k] == [x] + rest[..k - 1] && s[..k] == [x] + s[1..][..k - 1];
    assert ([x] + rest[..k - 1])[1..] == rest[..k - 1] && ([x] + s[1..][..k - 1])[1..] == s[1..][..k - 1];
  }

  lemma HeadAhead(s: seq<nat>, k: nat)
    requires Distinct(s) && s != [] && Least(s[0], Elems(s)) && 0 < k
    ensures LeastAhead(s, k) <==> LeastAhead(s[1..], k - 1)
  {
    forall j | 0 < j < |s| ensures s[0] < s[j] { assert s[j] in Elems(s); }
    if LeastAhead(s[1..], k - 1) {
      forall i, j | 0 <= i < j < |s| && i < k ensures s[i] < s[j] {
        if i > 0 { assert s[1..][i - 1] < s[1..][j - 1]; }
      }
    }
    if LeastAhead(s, k) {
      forall i, j | 0 <= i < j < |s[1..]| && i < k - 1 ensures s[1..][i] < s[1..][j] { assert s[i + 1] < s[j + 1]; }
    }
  }

  ghost function Above(ks: set<nat>, id: nat): set<nat> {
    set k | k in ks && k > id
  }

  /** Cutting the list at its k-th ID leaves the IDs above that one. */
  lemma SortedSuffix(ks: set<nat>, k: nat)
    requires 1 <= k <= |Sorted(ks)|
    ensures Sorted(Above(ks, Sorted(ks)[k - 1])) == Sorted(ks)[k..]
  {
    var s := Sorted(ks);
    SortedProps(ks);
    SuffixElems(s, k);
    SortedIs(s[k..], Above(ks, s[k - 1]));
  }

  lemma SuffixElems(s: seq<nat>, k: nat)
    requires Inc(s) && 1 <= k <= |s|
    ensures Elems(s[k..]) == Above(Elems(s), s[k - 1])
  {
    assert s == s[..k] + s[k..];
    ElemsConcat(s[..k], s[k..]);
  }

  /** A new largest ID goes to the end. */
  lemma SortedAppend(ks: set<nat>, x: nat)
    requires forall k :: k in ks ==> k < x
    ensures Sorted(ks + {x}) == Sorted(ks) + [x]
  {
    var s := Sorted(ks);
    SortedProps(ks);
    IncSnoc(s, x);
    ElemsConcat(s, [x]);
    SortedIs(s + [x], ks + {x});
  }

  lemma IncSnoc(s: seq<nat>, x: nat)
    requires Inc(s) && forall y :: y in Elems(s) ==> y < x
    ensures Inc(s + [x])
  {
    assert forall i :: 0 <= i < |s| ==> s[i] in Elems(s);
  }

  /** A new smallest ID goes to the front. */
  lemma SortedPrepend(ks: set<nat>, x: nat)
    requires forall k :: k in ks ==> x < k
    ensures Sorted({x} + ks) == [x] + Sorted(ks)
  {
    SortedProps(ks);
    IncCons(x, Sorted(ks));
    ElemsCons(x, Sorted(ks));
    SortedIs([x] + Sorted(ks), {x} + ks);
  }

  function Merge(a: seq<nat>, b: seq<nat>): seq<nat>
    decreases |a| + |b|
  {
    if a == [] then b
    else if b == [] then a
    else if a[0] < b[0] then [a[0]] + Merge(a[1..], b)
    else [b[0]] + Merge(a, b[1..])
  }

  lemma {:induction false} MergeElems(a: seq<nat>, b: seq<nat>)
    ensures Elems(Merge(a, b)) == Elems(a) + Elems(b)
    decreases |a| + |b|
  {
    if a != [] && b != [] {
      assert a == [a[0]] + a[1..] && b == [b[0]] + b[1..];
      ElemsCons(a[0], a[1..]);
      ElemsCons(b[0], b[1..]);
      if a[0] < b[0] {
        MergeElems(a[1..], b);
        ElemsCons(a[0], Merge(a[1..], b));
      } else {
        MergeElems(a, b[1..]);
        ElemsCons(b[0], Merge(a, b[1..]));
      }
    }
  }

  lemma IncCons(x: nat, s: seq<nat>)
    requires Inc(s) && forall y :: y in Elems(s) ==> x < y
    ensures Inc([x] + s)
  {
    assert forall i :: 0 <= i < |s| ==> s[i] in Elems(s);
  }

  lemma IncHead(s: seq<nat>, x: nat)
    requires Inc(s) && s != [] && x in Elems(s)
    ensures s[0] <= x
  {
  }

  lemma {:induction false} MergeInc(a: seq<nat>, b: seq<nat>)
    requires Inc(a) && Inc(b) && Elems(a) !! Elems(b)
    ensures Inc(Merge(a, b))
    decreases |a| + |b|
  {
    if a != [] && b != [] {
      TailElems(a);
      TailElems(b);
      assert a[0] in Elems(a) && b[0] in Elems(b);
      var a', b' := if a[0] < b[0] then a[1..] else a, if a[0] < b[0] then b else b[1..];
      MergeInc(a', b');
      MergeElems(a', b');
      forall y | y in Elems(a') + Elems(b') ensures Merge(a, b)[0] < y {
        if y in Elems(a') { IncHead(a, y); } else { IncHead(b, y); }
      }
      IncCons(Merge(a, b)[0], Merge(a', b'));
    }
  }

  lemma MergeSorted(p: set<nat>, t: set<nat>)
    requires p !! t
    ensures Merge(Sorted(p), Sorted(t)) == Sorted(p + t)
  {
    SortedProps(p);
    SortedProps(t);
    MergeInc(Sorted(p), Sorted(t));
    MergeElems(Sorted(p), Sorted(t));
    SortedIs(Merge(Sorted(p), Sorted(t)), p + t);
  }
}
