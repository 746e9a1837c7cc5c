/**
 Messages as the queue sees them, and the listing of a message store in ID order:
 the order in which the store hands its messages out.
 */
module Messages {
  import opened Ascending

  /** id, persistence flag (delivery-mode 2) and size drive the queue; payload stands for
      everything else that Marshal writes. */
  datatype Message = Message(id: nat, persistent: bool, bodySize: nat, payload: string)

  /** The messages of one queue in a message store, by ID. */
  type Store = map<nat, Message>

  ghost predicate Keyed(m: Store) {
    forall k :: k in m ==> m[k].id == k
  }

  /** The messages stored under the given IDs (a missing ID gives an empty message). */
  function Lookup(m: Store, ids: seq<nat>): seq<Message> {
    seq(|ids|, i requires 0 <= i < |ids| => if ids[i] in m then m[ids[i]] else Message(ids[i], false, 0, ""))
  }

  function InOrder(m: Store): seq<Message> {
    Lookup(m, Sorted(m.Keys))
  }

  function First(n: nat, s: seq<Message>): seq<Message> {
    if n < |s| then s[..n] else s
  }

  /** mergeSortedMessageSlices as a recursion; on equal IDs the second list goes first. */
  function MergeById(a: seq<Message>, b: seq<Message>): seq<Message>
    decreases |a| + |b|
  {
    if a == [] then b
    else if b == [] then a
    else if a[0].id < b[0].id then [a[0]] + MergeById(a[1..], b)
    else [b[0]] + MergeById(a, b[1..])
  }

  lemma InOrderLength(m: Store)
    ensures |InOrder(m)| == |m|
  {
    SortedProps(m.Keys);
  }

  lemma SortedMember(ks: set<nat>, i: nat)
    requires i < |Sorted(ks)|
    ensures Sorted(ks)[i] in ks
  {
    SortedProps(ks);
    assert Sorted(ks)[i] in Elems(Sorted(ks));
  }

  /** Equal stores on the listed IDs look up equal lists. */
  lemma LookupAgrees(m: Store, m': Store, ks: set<nat>)
    requires ks <= m.Keys && ks <= m'.Keys
    requires forall k :: k in ks ==> m[k] == m'[k]
    ensures Lookup(m, Sorted(ks)) == Lookup(m', Sorted(ks))
  {
    forall i | 0 <= i < |Sorted(ks)| ensures Sorted(ks)[i] in ks { SortedMember(ks, i); }
  }

  lemma InOrderMember(m: Store, x: Message)
    requires Keyed(m)
    ensures x in InOrder(m) <==> x.id in m && m[x.id] == x
  {
    SortedProps(m.Keys);
    var ids := Sorted(m.Keys);
    if x in InOrder(m) {
      var i :| 0 <= i < |InOrder(m)| && InOrder(m)[i] == x;
      SortedMember(m.Keys, i);
    }
    if x.id in m && m[x.id] == x {
      assert x.id in Elems(ids);
      var i :| 0 <= i < |ids| && ids[i] == x.id;
      assert InOrder(m)[i] == x;
    }
  }

  function Above(m: Store, id: nat): Store {
    map k | k in m && k > id :: m[k]
  }

  function From(m: Store, id: nat): Store {
    map k | k in m && k >= id :: m[k]
  }

  lemma InOrderAscends(m: Store)
    requires Keyed(m)
    ensures forall i, j :: 0 <= i < j < |InOrder(m)| ==> InOrder(m)[i].id < InOrder(m)[j].id
  {
    SortedProps(m.Keys);
    forall i | 0 <= i < |InOrder(m)| ensures InOrder(m)[i].id == Sorted(m.Keys)[i] { SortedMember(m.Keys, i); }
  }

  /** Cutting the order at its k-th message leaves the messages above that ID. */
  lemma OrderSuffix(m: Store, k: nat)
    requires Keyed(m) && 1 <= k <= |InOrder(m)|
    ensures InOrder(Above(m, InOrder(m)[k - 1].id)) == InOrder(m)[k..]
  {
    var id := Sorted(m.Keys)[k - 1];
    SortedMember(m.Keys, k - 1);
    assert Above(m, id).Keys == Ascending.Above(m.Keys, id);
    SortedSuffix(m.Keys, k);
    LookupAgrees(m, Above(m, id), Above(m, id).Keys);
    assert Lookup(m, Sorted(m.Keys)[k..]) == Lookup(m, Sorted(m.Keys))[k..];
  }

  /** A message with a new largest ID goes to the end. */
  lemma OrderAppend(m: Store, x: Message)
    requires forall k :: k in m ==> k < x.id
    ensures InOrder(m[x.id := x]) == InOrder(m) + [x]
  {
    SortedAppend(m.Keys, x.id);
    assert m[x.id := x].Keys == m.Keys + {x.id};
    LookupAgrees(m, m[x.id := x], m.Keys);
  }

  /** A message with a new smallest ID goes to the front. */
  lemma OrderPrepend(m: Store, x: Message)
    requires forall k :: k in m ==> x.id < k
    ensures InOrder(m[x.id := x]) == [x] + InOrder(m)
  {
    SortedPrepend(m.Keys, x.id);
    assert m[x.id := x].Keys == {x.id} + m.Keys;
    LookupAgrees(m, m[x.id := x], m.Keys);
  }

  lemma {:induction false} MergeLookup(m: Store, a: seq<nat>, b: seq<nat>)
    requires Keyed(m)
    ensures MergeById(Lookup(m, a), Lookup(m, b)) == Lookup(m, Merge(a, b))
    decreases |a| + |b|
  {
    if a != [] && b != [] {
      assert Lookup(m, a)[1..] == Lookup(m, a[1..]) && Lookup(m, b)[1..] == Lookup(m, b[1..]);
      if a[0] < b[0] { MergeLookup(m, a[1..], b); } else { MergeLookup(m, a, b[1..]); }
    }
  }

  /** Merging two stores' listings lists their union. */
  lemma MergeOrders(p: Store, t: Store)
    requires Keyed(p) && Keyed(t) && p.Keys !! t.Keys
    ensures MergeById(InOrder(p), InOrder(t)) == InOrder(p + t)
  {
    MergeSorted(p.Keys, t.Keys);
    assert (p + t).Keys == p.Keys + t.Keys;
    LookupAgrees(p, p + t, p.Keys);
    LookupAgrees(t, p + t, t.Keys);
    MergeLookup(p + t, Sorted(p.Keys), Sorted(t.Keys));
  }

  /** Cutting the inputs to at least n before merging does not change the first n of the merge. */
  lemma {:induction false} FirstOfMerge(n: nat, i: nat, j: nat, a: seq<Message>, b: seq<Message>)
    requires n <= i && n <= j
    ensures First(n, MergeById(First(i, a), First(j, b))) == First(n, MergeById(a, b))
  {
    if n > 0 && a != [] && b != [] {
      var a', b' := First(i, a), First(j, b);
      if a[0].id < b[0].id {
        assert a'[1..] == First(i - 1, a[1..]);
        FirstOfMerge(n - 1, i - 1, j, a[1..], b);
        FirstCons(n, a[0], MergeById(a'[1..], b'), MergeById(a[1..], b));
      } else {
        assert b'[1..] == First(j - 1, b[1..]);
        FirstOfMerge(n - 1, i, j - 1, a, b[1..]);
        FirstCons(n, b[0], MergeById(a', b'[1..]), MergeById(a, b[1..]));
      }
    }
  }

  lemma FirstCons(n: nat, x: Message, s: seq<Message>, t: seq<Message>)
    requires n > 0 && First(n - 1, s) == First(n - 1, t)
    ensures First(n, [x] + s) == First(n, [x] + t)
  {
    assert First(n, [x] + s) == [x] + First(n - 1, s);
    assert First(n, [x] + t) == [x] + First(n - 1, t);
  }
}
