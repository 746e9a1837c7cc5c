/**
 One database under the messages of all queues: the writes of a queue reach its own keys
 whatever the others write, and a restart scans by a prefix of the key
 (msgstorage/msgstorage.go, LoadFromMsgStorage of queue/queue.go).
 */
module SharedStore {
  import Ascending
  import opened BackedQueue
  import opened Messages
  import MsgStorages
  import Recovery
  import opened StorageKeys
  import opened Words

  /** Queue name and message ID; StorageKeys.KeyInjective says that this is what a stored key is. */
  type Key = (string, nat)

  type Db = map<Key, Message>

  // ---------------------------------------------------------------- one queue's part

  function Own<V>(m: map<Key, V>, n: string): map<nat, V> {
    map k | k in m && k.0 == n :: k.1 := m[k]
  }

  lemma OwnAt<V>(m: map<Key, V>, n: string, id: nat)
    ensures id in Own(m, n) <==> (n, id) in m
    ensures id in Own(m, n) ==> Own(m, n)[id] == m[(n, id)]
  {
    if id in Own(m, n) {
      var k :| k in m && k.0 == n && k.1 == id;
      assert k == (n, id);
    }
    if (n, id) in m { assert (n, id).1 == id; }
  }

  function OwnBuffers<V>(b: MsgStorages.Buffers<Key, V>, n: string): MsgStorages.Buffers<nat, V> {
    MsgStorages.Buffers(Own(b.add, n), Own(b.update, n), Own(b.del, n))
  }

  function OwnState<V>(s: MsgStorages.State<Key, V>, n: string): MsgStorages.State<nat, V> {
    MsgStorages.State(Own(s.db, n), OwnBuffers(s.buffers, n))
  }

  function OwnOp<V>(op: MsgStorages.Op<Key, V>, n: string): seq<MsgStorages.Op<nat, V>> {
    match op
    case Add(k, v) => if k.0 == n then [MsgStorages.Add(k.1, v)] else []
    case Update(k, v) => if k.0 == n then [MsgStorages.Update(k.1, v)] else []
    case Del(k, v) => if k.0 == n then [MsgStorages.Del(k.1, v)] else []
    case Persist => [MsgStorages.Persist]
  }

  /** The writes of one queue, and every flush. */
  function OwnOps<V>(ops: seq<MsgStorages.Op<Key, V>>, n: string): seq<MsgStorages.Op<nat, V>> {
    if ops == [] then [] else OwnOp(ops[0], n) + OwnOps(ops[1..], n)
  }

  lemma OwnSet<V>(m: map<Key, V>, k: Key, v: V, n: string)
    ensures Own(m[k := v], n) == if k.0 == n then Own(m, n)[k.1 := v] else Own(m, n)
  {
    var after := if k.0 == n then Own(m, n)[k.1 := v] else Own(m, n);
    forall id ensures id in Own(m[k := v], n) <==> id in after {
      OwnAt(m[k := v], n, id);
      OwnAt(m, n, id);
    }
    forall id | id in after ensures Own(m[k := v], n)[id] == after[id] {
      OwnAt(m[k := v], n, id);
      OwnAt(m, n, id);
    }
  }

  /** A flush acts on every queue's part alone. */
  lemma OwnFlushed<V>(s: MsgStorages.State<Key, V>, n: string)
    ensures Own(MsgStorages.Flushed(s), n) == MsgStorages.Flushed(OwnState(s, n))
  {
    var shared, own := MsgStorages.Flushed(s), MsgStorages.Flushed(OwnState(s, n));
    forall id
      ensures id in Own(shared, n) <==> id in own
      ensures id in own ==> Own(shared, n)[id] == own[id]
    {
      OwnAt(shared, n, id);
      OwnFlushedAt(s, n, id);
    }
  }

  lemma OwnFlushedAt<V>(s: MsgStorages.State<Key, V>, n: string, id: nat)
    ensures id in MsgStorages.Flushed(OwnState(s, n)) <==> (n, id) in MsgStorages.Flushed(s)
    ensures id in MsgStorages.Flushed(OwnState(s, n)) ==>
              MsgStorages.Flushed(OwnState(s, n))[id] == MsgStorages.Flushed(s)[(n, id)]
  {
    MsgStorages.FlushedAt(s, (n, id));
    MsgStorages.FlushedAt(OwnState(s, n), id);
    OwnAt(s.db, n, id);
    OwnAt(s.buffers.add, n, id);
    OwnAt(s.buffers.update, n, id);
    OwnAt(s.buffers.del, n, id);
  }

  lemma RunOne<K, V>(s: MsgStorages.State<K, V>, op: MsgStorages.Op<K, V>)
    ensures MsgStorages.Run(s, [op]) == MsgStorages.Step(s, op)
  {
    assert [op][1..] == [] && MsgStorages.Run(MsgStorages.Step(s, op), []) == MsgStorages.Step(s, op);
  }

  lemma OwnWrite<V>(s: MsgStorages.State<Key, V>, op: MsgStorages.Op<Key, V>, n: string)
    requires !op.Persist?
    ensures var after := OwnState(MsgStorages.Step(s, op), n);
            after == if op.k.0 == n then MsgStorages.Step(OwnState(s, n), OwnOp(op, n)[0]) else OwnState(s, n)
  {
    match op
    case Add(k, v) => OwnSet(s.buffers.add, k, v, n);
    case Update(k, v) => OwnSet(s.buffers.update, k, v, n);
    case Del(k, v) => OwnSet(s.buffers.del, k, v, n);
  }

  lemma OwnPersist<V>(s: MsgStorages.State<Key, V>, n: string)
    ensures OwnState(MsgStorages.Step(s, MsgStorages.Persist), n)
            == MsgStorages.Step(OwnState(s, n), MsgStorages.Persist)
  {
    OwnFlushed(s, n);
    assert Own<V>(map[], n) == map[];
  }

  lemma OwnStep<V>(s: MsgStorages.State<Key, V>, op: MsgStorages.Op<Key, V>, n: string)
    ensures OwnState(MsgStorages.Step(s, op), n) == MsgStorages.Run(OwnState(s, n), OwnOp(op, n))
  {
    var o := OwnOp(op, n);
    if op.Persist? { OwnPersist(s, n); } else { OwnWrite(s, op, n); }
    if o != [] { RunOne(OwnState(s, n), o[0]); }
  }

  lemma {:induction false} RunConcat<K, V>(s: MsgStorages.State<K, V>, a: seq<MsgStorages.Op<K, V>>,
                                           b: seq<MsgStorages.Op<K, V>>)
    ensures MsgStorages.Run(s, a + b) == MsgStorages.Run(MsgStorages.Run(s, a), b)
    decreases |a|
  {
    if a == [] {
      assert a + b == b;
    } else {
      RunConcat(MsgStorages.Step(s, a[0]), a[1..], b);
      assert (a + b)[0] == a[0] && (a + b)[1..] == a[1..] + b;
    }
  }

  /** Whatever the other queues write, a queue's part of the store is what its own writes make of it. */
  lemma {:induction false} OwnRun<V>(s: MsgStorages.State<Key, V>, ops: seq<MsgStorages.Op<Key, V>>, n: string)
    ensures OwnState(MsgStorages.Run(s, ops), n) == MsgStorages.Run(OwnState(s, n), OwnOps(ops, n))
    decreases |ops|
  {
    if ops != [] {
      OwnStep(s, ops[0], n);
      OwnRun(MsgStorages.Step(s, ops[0]), ops[1..], n);
      RunConcat(OwnState(s, n), OwnOp(ops[0], n), OwnOps(ops[1..], n));
    }
  }

  // ---------------------------------------------------------------- the prefix scan

  ghost predicate Ids63(db: Db) {
    forall k :: k in db ==> k.1 < WORD63 && db[k].id == k.1
  }

  function KeyOf(k: Key): string
    requires k.1 < WORD63
  {
    MakeKey(k.1, k.0)
  }

  /** Every key under the prefix of a queue, as GetQueueLength counts them. */
  ghost function Counted(db: Db, n: string): set<Key>
    requires Ids63(db)
  {
    set k | k in db && Prefix(n) <= KeyOf(k)
  }

  /** The keys the scan from ID 0 meets. */
  ghost function Met(db: Db, n: string): set<Key>
    requires Ids63(db)
  {
    set k | k in db && Prefix(n) <= KeyOf(k) && !Before(KeyOf(k), MakeKey(0, n))
  }

  ghost function OwnKeys(db: Db, n: string): set<Key> {
    set k | k in db && k.0 == n
  }

  /** The keys of queues whose name extends this one by a dot. */
  ghost function Foreign(db: Db, n: string): set<Key> {
    set k | k in db && n + "." <= k.0
  }

  lemma {:induction false} BeforeIrreflexive(a: string)
    ensures !Before(a, a)
  {
    if a != [] { BeforeIrreflexive(a[1..]); }
  }

  lemma OwnMet(db: Db, n: string, k: Key)
    requires Ids63(db) && k in OwnKeys(db, n)
    ensures k in Met(db, n)
  {
    ScanMeetsIff(n, k.1, k.0);
    if k.1 == 0 {
      BeforeIrreflexive(MakeKey(0, n));
    } else {
      KeyOrderIff(0, k.1, n);
      if KeyOf(k) == MakeKey(0, n) { KeyInjective(k.1, k.0, 0, n); }
      BeforeTotal(KeyOf(k), MakeKey(0, n));
    }
  }

  lemma CountedSplit(db: Db, n: string)
    requires Ids63(db)
    ensures Counted(db, n) == OwnKeys(db, n) + Foreign(db, n) && OwnKeys(db, n) !! Foreign(db, n)
    ensures Met(db, n) == OwnKeys(db, n) + Foreign(db, n) * Met(db, n)
  {
    forall k | k in db ensures k in Counted(db, n) <==> k.0 == n || n + "." <= k.0 { ScanMeetsIff(n, k.1, k.0); }
    forall k | k in OwnKeys(db, n) ensures k in Met(db, n) { OwnMet(db, n, k); }
    assert Met(db, n) <= Counted(db, n);
  }

  lemma {:induction false} IdsOf(ks: set<Key>, n: string)
    requires forall k :: k in ks ==> k.0 == n
    ensures |set k | k in ks :: k.1| == |ks|
    decreases ks
  {
    if ks != {} {
      var k :| k in ks;
      IdsOf(ks - {k}, n);
      var rest := set j | j in ks - {k} :: j.1;
      assert k.1 !in rest;
      assert (set j | j in ks :: j.1) == rest + {k.1};
    }
  }

  lemma OwnSize(db: Db, n: string)
    ensures |Own(db, n)| == |OwnKeys(db, n)|
  {
    IdsOf(OwnKeys(db, n), n);
    assert Own(db, n).Keys == set k | k in OwnKeys(db, n) :: k.1;
  }

  // ---------------------------------------------------------------- recovery through the scan

  /** The scan hands out each key it meets once, in byte order. */
  ghost predicate Listing(ks: seq<Key>, db: Db, n: string)
    requires Ids63(db)
  {
    && (forall i :: 0 <= i < |ks| ==> ks[i] in Met(db, n))
    && (forall k :: k in Met(db, n) ==> k in ks)
    && (forall i, j :: 0 <= i < j < |ks| ==> ks[i].1 < WORD63 && ks[j].1 < WORD63 && Before(KeyOf(ks[i]), KeyOf(ks[j])))
  }

  function Listed(db: Db, ks: seq<Key>): seq<Message>
    requires forall i :: 0 <= i < |ks| ==> ks[i] in db
  {
    seq(|ks|, i requires 0 <= i < |ks| => db[ks[i]])
  }

  /** LoadFromMsgStorage over the shared database. */
  ghost function RecoverShared(db: Db, n: string, ks: seq<Key>, maxInRam: nat): Queue
    requires Ids63(db) && Listing(ks, db, n)
  {
    RecoverWith(Restarted(Own(db, n), maxInRam), Limited(maxInRam, Listed(db, ks)), |Counted(db, n)|)
  }

  lemma {:induction false} SizeOfList(ks: seq<Key>, s: set<Key>)
    requires (forall i :: 0 <= i < |ks| ==> ks[i] in s) && (forall k :: k in s ==> k in ks)
    requires forall i, j :: 0 <= i < j < |ks| ==> ks[i] != ks[j]
    ensures |ks| == |s|
  {
    if ks == [] {
      assert s == {};
    } else {
      var last, front := ks[|ks| - 1], ks[..|ks| - 1];
      forall k | k in s - {last} ensures k in front {
        var i :| 0 <= i < |ks| && ks[i] == k;
        assert front[i] == k;
      }
      SizeOfList(front, s - {last});
      assert s == (s - {last}) + {last};
    }
  }

  lemma ListingSize(ks: seq<Key>, db: Db, n: string)
    requires Ids63(db) && Listing(ks, db, n)
    ensures |ks| == |Met(db, n)|
  {
    forall i, j | 0 <= i < j < |ks| ensures ks[i] != ks[j] { BeforeIrreflexive(KeyOf(ks[i])); }
    SizeOfList(ks, Met(db, n));
  }

  /** No key of a queue whose name extends this one by a dot is counted with it: none at all when the scan reaches the
      limit, and otherwise none that the scan meets. */
  ghost predicate NoneForeign(db: Db, n: string, maxInRam: nat)
    requires Ids63(db)
  {
    if |Met(db, n)| >= maxInRam then Foreign(db, n) == {} else Foreign(db, n) * Met(db, n) == {}
  }

  /** The recovered queue has the right length exactly then. */
  lemma SharedLengthIff(db: Db, n: string, ks: seq<Key>, maxInRam: nat)
    requires Ids63(db) && Listing(ks, db, n)
    ensures RecoverShared(db, n, ks, maxInRam).length == |Own(db, n)| <==> NoneForeign(db, n, maxInRam)
  {
    ListingSize(ks, db, n);
    SizesSplit(db, n);
    SharedLength(db, n, ks, maxInRam);
  }

  lemma SizesSplit(db: Db, n: string)
    requires Ids63(db)
    ensures |Counted(db, n)| == |Own(db, n)| + |Foreign(db, n)|
    ensures |Met(db, n)| == |Own(db, n)| + |Foreign(db, n) * Met(db, n)|
  {
    CountedSplit(db, n);
    OwnSize(db, n);
  }

  lemma SharedLength(db: Db, n: string, ks: seq<Key>, maxInRam: nat)
    requires Ids63(db) && Listing(ks, db, n)
    ensures RecoverShared(db, n, ks, maxInRam).length == if |ks| >= maxInRam then |Counted(db, n)| else |ks|
  {
  }

  // ---------------------------------------------------------------- what is recovered

  function Ids(ks: seq<Key>): seq<nat> {
    seq(|ks|, i requires 0 <= i < |ks| => ks[i].1)
  }

  /** How many of the keys the scan lists are loaded. */
  function Taken(ks: seq<Key>, maxInRam: nat): (k: nat)
    ensures k <= |ks|
  {
    if maxInRam == 0 || |ks| <= maxInRam then |ks| else maxInRam
  }

  lemma OwnListing(db: Db, n: string, ks: seq<Key>)
    requires Ids63(db) && Listing(ks, db, n) && Foreign(db, n) * Met(db, n) == {}
    ensures forall i :: 0 <= i < |ks| ==> ks[i].0 == n && ks[i].1 in Own(db, n)
    ensures Ascending.Distinct(Ids(ks)) && Ascending.Elems(Ids(ks)) == Own(db, n).Keys
  {
    CountedSplit(db, n);
    forall i | 0 <= i < |ks| ensures ks[i].0 == n && ks[i].1 in Own(db, n) {
      assert ks[i] in OwnKeys(db, n);
      OwnAt(db, n, ks[i].1);
    }
    forall i, j | 0 <= i < j < |ks| ensures Ids(ks)[i] != Ids(ks)[j] { BeforeIrreflexive(KeyOf(ks[i])); }
    forall id ensures id in Ascending.Elems(Ids(ks)) <==> id in Own(db, n).Keys {
      OwnAt(db, n, id);
      if id in Own(db, n) {
        assert (n, id) in OwnKeys(db, n);
        var i :| 0 <= i < |ks| && ks[i] == (n, id);
        assert Ids(ks)[i] == id;
      }
    }
  }

  /** What is loaded is the start of the queue's own messages in ID order exactly when the keys listed first carry the
      least IDs, in order. */
  lemma LoadedStartIff(db: Db, n: string, ks: seq<Key>, k: nat)
    requires Ids63(db) && Listing(ks, db, n) && Foreign(db, n) * Met(db, n) == {} && k <= |ks|
    ensures |InOrder(Own(db, n))| == |ks|
    ensures Listed(db, ks)[..k] == InOrder(Own(db, n))[..k] <==> Ascending.LeastAhead(Ids(ks), k)
  {
    var own, ids := Own(db, n), Ids(ks);
    OwnListing(db, n, ks);
    Ascending.SortedStartIff(ids, k);
    forall i | 0 <= i < k ensures ids[i] in own && Listed(db, ks)[i] == own[ids[i]] && own[ids[i]].id == ids[i] {
      OwnAt(db, n, ids[i]);
    }
    forall id | id in own ensures own[id].id == id { OwnAt(db, n, id); }
    LookedUp(own, Ascending.Sorted(own.Keys), ids, Listed(db, ks), k);
  }

  lemma LookedUp(own: Store, sorted: seq<nat>, ids: seq<nat>, ms: seq<Message>, k: nat)
    requires Keyed(own) && k <= |sorted| == |ids| == |ms| && sorted == Ascending.Sorted(own.Keys)
    requires forall i :: 0 <= i < k ==> ids[i] in own && ms[i] == own[ids[i]]
    ensures ms[..k] == Lookup(own, sorted)[..k] <==> sorted[..k] == ids[..k]
  {
    forall i | 0 <= i < k ensures Lookup(own, sorted)[i].id == sorted[i] { SortedMember(own.Keys, i); }
    if ms[..k] == Lookup(own, sorted)[..k] {
      forall i | 0 <= i < k ensures sorted[i] == ids[i] { assert ms[..k][i] == Lookup(own, sorted)[..k][i]; }
    }
    if sorted[..k] == ids[..k] {
      forall i | 0 <= i < k ensures ms[i] == Lookup(own, sorted)[i] { assert sorted[..k][i] == ids[..k][i]; }
    }
  }

  /** The queue comes back from the shared database exactly as it would from a store of its own, all its messages in
      ID order with the right length, exactly when no dotted neighbour is counted with it and the keys that are loaded
      carry the least IDs, in order. */
  lemma SharedRecoversIff(db: Db, n: string, ks: seq<Key>, maxInRam: nat)
    requires Ids63(db) && Listing(ks, db, n) && maxInRam < WORD64
    ensures var q := RecoverShared(db, n, ks, maxInRam);
            Inv(q) && View(q) == InOrder(Own(db, n)) && q.length == |Own(db, n)| <==>
              NoneForeign(db, n, maxInRam) && Ascending.LeastAhead(Ids(ks), Taken(ks, maxInRam))
  {
    SharedLengthIff(db, n, ks, maxInRam);
    if NoneForeign(db, n, maxInRam) {
      LoadedStartIff(db, n, ks, Taken(ks, maxInRam));
      if Ascending.LeastAhead(Ids(ks), Taken(ks, maxInRam)) {
        SharedIsOwn(db, n, ks, maxInRam);
        OwnKeyed(db, n);
        RecoverRebuilds(Own(db, n), maxInRam);
      }
      RamIsLoaded(db, n, ks, maxInRam);
    }
  }

  lemma RamIsLoaded(db: Db, n: string, ks: seq<Key>, maxInRam: nat)
    requires Ids63(db) && Listing(ks, db, n)
    ensures var q, k := RecoverShared(db, n, ks, maxInRam), Taken(ks, maxInRam);
            q.ram == Listed(db, ks)[..k] && View(q)[..k] == q.ram
  {
    var q, k := RecoverShared(db, n, ks, maxInRam), Taken(ks, maxInRam);
    var found := Limited(maxInRam, Listed(db, ks));
    assert found == Listed(db, ks)[..k] && [] + found == found;
    assert q.ram == found;
  }

  lemma SharedIsOwn(db: Db, n: string, ks: seq<Key>, maxInRam: nat)
    requires Ids63(db) && Listing(ks, db, n) && NoneForeign(db, n, maxInRam) && |InOrder(Own(db, n))| == |ks|
    requires Listed(db, ks)[..Taken(ks, maxInRam)] == InOrder(Own(db, n))[..Taken(ks, maxInRam)]
    ensures RecoverShared(db, n, ks, maxInRam) == Recover(Restarted(Own(db, n), maxInRam))
  {
    var own := Own(db, n);
    assert From(own, 0) == own;
    if |ks| >= maxInRam { CountsOwn(db, n, ks, maxInRam); }
    LimitedAlike(Listed(db, ks), InOrder(own), ks, maxInRam);
    CountAlike(Restarted(own, maxInRam), Limited(maxInRam, Listed(db, ks)), |Counted(db, n)|, |own|);
  }

  lemma CountsOwn(db: Db, n: string, ks: seq<Key>, maxInRam: nat)
    requires Ids63(db) && Listing(ks, db, n) && NoneForeign(db, n, maxInRam) && |ks| >= maxInRam
    ensures |Counted(db, n)| == |Own(db, n)|
  {
    SizesSplit(db, n);
    ListingSize(ks, db, n);
  }

  lemma LimitedAlike(a: seq<Message>, b: seq<Message>, ks: seq<Key>, maxInRam: nat)
    requires |a| == |b| == |ks| && a[..Taken(ks, maxInRam)] == b[..Taken(ks, maxInRam)]
    ensures Limited(maxInRam, a) == Limited(maxInRam, b)
  {
    assert a[..|a|] == a && b[..|b|] == b;
  }

  lemma CountAlike(q: Queue, found: seq<Message>, c: nat, d: nat)
    requires |found| >= q.maxInRam ==> c == d
    ensures RecoverWith(q, found, c) == RecoverWith(q, found, d)
  {
  }

  lemma OwnKeyed(db: Db, n: string)
    requires Ids63(db)
    ensures Ids64(Own(db, n))
  {
    forall id | id in Own(db, n) ensures id < WORD63 && Own(db, n)[id].id == id { OwnAt(db, n, id); }
  }

  lemma IdsAscend(db: Db, n: string, ks: seq<Key>, i: nat, j: nat)
    requires Ids63(db) && Listing(ks, db, n) && i < j < |ks| && ks[i].0 == n && ks[j].0 == n
    requires forall a, b :: a in Own(db, n) && b in Own(db, n) && a < b ==> b < WORD64 && ListedFirst(a, b)
    requires ks[i].1 in Own(db, n) && ks[j].1 in Own(db, n)
    ensures ks[i].1 < ks[j].1
  {
    var a, b := ks[i].1, ks[j].1;
    if a == b { BeforeIrreflexive(KeyOf(ks[i])); }
    if b < a {
      KeyOrderIff(b, a, n);
      if KeyOf(ks[i]) == KeyOf(ks[j]) { BeforeIrreflexive(KeyOf(ks[i])); }
      BeforeTotal(KeyOf(ks[i]), KeyOf(ks[j]));
    }
  }

  /** IDs of equally many digits, which IDs counted from the clock in nanoseconds have, leave only the neighbours to
      ask about. */
  lemma EqualDigitsRecover(db: Db, n: string, ks: seq<Key>, maxInRam: nat)
    requires Ids63(db) && Listing(ks, db, n) && Foreign(db, n) == {}
    requires forall a, b :: a in Own(db, n) && b in Own(db, n) ==> |Decimal(a)| == |Decimal(b)|
    ensures NoneForeign(db, n, maxInRam) && Ascending.LeastAhead(Ids(ks), Taken(ks, maxInRam))
  {
    var own := Own(db, n);
    OwnKeyed(db, n);
    OwnListing(db, n, ks);
    forall k | k in own ensures k < WORD63 { OwnAt(db, n, k); }
    EqualDigitsFollow(own, n);
    ScanFollowsIdsIff(own, n);
    forall i, j | 0 <= i < j < |ks| ensures Ids(ks)[i] < Ids(ks)[j] { IdsAscend(db, n, ks, i, j); }
  }

  ghost predicate InIdOrder(ms: seq<Message>) {
    forall i, j :: 0 <= i < j < |ms| ==> ms[i].id < ms[j].id
  }

  /** Exactly the persistent messages that were queued or unsettled. */
  ghost predicate Survivors(ms: seq<Message>, before: Queue, out: set<Message>) {
    forall m: Message :: m in ms <==> m.persistent && (m in View(before) || m in out)
  }

  ghost predicate Restores(after: Queue, before: Queue, out: set<Message>) {
    && Inv(after) && after.length == |View(after)|
    && InIdOrder(View(after)) && Survivors(View(after), before, out)
  }

  /** Only one list in ID order has given members. */
  lemma {:induction false} SameOrder(a: seq<Message>, b: seq<Message>)
    requires InIdOrder(a) && InIdOrder(b) && forall m: Message :: m in a <==> m in b
    ensures a == b
  {
    assert (a != [] ==> a[0] in a) && (b != [] ==> b[0] in b);
    if a != [] {
      SameHead(a, b);
      forall m: Message ensures m in a[1..] <==> m in b[1..] { SameRest(a, b, m); }
      SameOrder(a[1..], b[1..]);
      assert a == [a[0]] + a[1..] && b == [b[0]] + b[1..];
    }
  }

  lemma SameHead(a: seq<Message>, b: seq<Message>)
    requires InIdOrder(a) && InIdOrder(b) && a != [] && b != [] && a[0] in b && b[0] in a
    ensures a[0] == b[0]
  {
    var i :| 0 <= i < |a| && a[i] == b[0];
    var j :| 0 <= j < |b| && b[j] == a[0];
  }

  lemma SameRest(a: seq<Message>, b: seq<Message>, m: Message)
    requires a != [] && b != [] && a[0] == b[0] && (m in a <==> m in b)
    requires forall i :: 0 < i < |a| ==> a[0].id < a[i].id
    requires forall i :: 0 < i < |b| ==> b[0].id < b[i].id
    ensures m in a[1..] <==> m in b[1..]
  {
    assert m in a <==> m == a[0] || m in a[1..] by { assert a == [a[0]] + a[1..]; }
    assert m in b <==> m == b[0] || m in b[1..] by { assert b == [b[0]] + b[1..]; }
  }

  /** Restart recovery over the shared database. All queues write as they like; the queue is restored exactly when no
      dotted neighbour is counted with it and the keys that are loaded carry the least IDs, in order. */
  lemma SharedRestartRecoversIff(db0: Db, n: string, q: Queue, top: nat, out: set<Message>, ops: seq<Op>,
                                 writes: seq<MsgStorages.Op<Key, Message>>, db: Db, ks: seq<Key>, maxInRam: nat)
    requires Recovery.CrashInv(q, top, out) && q.durable && maxInRam < WORD64 && q.p == Own(db0, n)
    requires |Run(q, ops).1| == |ops| && Legal(top, out, ops, Run(q, ops).1)
    requires Recovery.Unflushed(OwnOps(writes, n)) == Recovery.AllWrites(q, ops)
    requires db == MsgStorages.Flushed(MsgStorages.Run(MsgStorages.State(db0, MsgStorages.Empty()), writes))
    requires Ids63(db) && Listing(ks, db, n)
    ensures var (before, rs) := Run(q, ops);
            Restores(RecoverShared(db, n, ks, maxInRam), before, Recovery.OutAfter(out, ops, rs)) <==>
              NoneForeign(db, n, maxInRam) && Ascending.LeastAhead(Ids(ks), Taken(ks, maxInRam))
  {
    var (before, rs) := Run(q, ops);
    var held := Recovery.OutAfter(out, ops, rs);
    OwnRestores(db0, n, q, top, out, ops, writes, db, maxInRam);
    SharedRecoversIff(db, n, ks, maxInRam);
    RestoresIff(RecoverShared(db, n, ks, maxInRam), Own(db, n), before, held, maxInRam);
  }

  /** The same for a store that holds nothing but the queue. */
  lemma OwnRestores(db0: Db, n: string, q: Queue, top: nat, out: set<Message>, ops: seq<Op>,
                    writes: seq<MsgStorages.Op<Key, Message>>, db: Db, maxInRam: nat)
    requires Recovery.CrashInv(q, top, out) && q.durable && maxInRam < WORD64 && q.p == Own(db0, n)
    requires |Run(q, ops).1| == |ops| && Legal(top, out, ops, Run(q, ops).1)
    requires Recovery.Unflushed(OwnOps(writes, n)) == Recovery.AllWrites(q, ops)
    requires db == MsgStorages.Flushed(MsgStorages.Run(MsgStorages.State(db0, MsgStorages.Empty()), writes))
    requires Ids63(db)
    ensures var (before, rs) := Run(q, ops);
            && Restores(Recover(Restarted(Own(db, n), maxInRam)), before, Recovery.OutAfter(out, ops, rs))
            && Keyed(Own(db, n))
  {
    var s0 := MsgStorages.State(db0, MsgStorages.Empty());
    OwnRun(s0, writes, n);
    OwnFlushed(MsgStorages.Run(s0, writes), n);
    assert Own<Message>(map[], n) == map[];
    Recovery.RestartRecovers(q, top, out, ops, OwnOps(writes, n), maxInRam);
    OwnKeyed(db, n);
  }

  lemma SameSurvivors(a: seq<Message>, b: seq<Message>, before: Queue, out: set<Message>)
    requires InIdOrder(a) && InIdOrder(b) && Survivors(a, before, out) && Survivors(b, before, out)
    ensures a == b
  {
    SameOrder(a, b);
  }

  lemma RestoresIff(after: Queue, own: Store, before: Queue, held: set<Message>, maxInRam: nat)
    requires Keyed(own) && maxInRam < WORD64 && Restores(Recover(Restarted(own, maxInRam)), before, held)
    ensures Restores(after, before, held) <==> Inv(after) && View(after) == InOrder(own) && after.length == |own|
  {
    RecoverRebuilds(own, maxInRam);
    InOrderLength(own);
    if Restores(after, before, held) { SameSurvivors(View(after), InOrder(own), before, held); }
  }

  /** A purge of one queue deletes by the same prefix: it spares another one exactly when that one holds nothing or
      its name does not extend the first by a dot. */
  lemma PurgeSparesIff(db: Db, n: string, other: string)
    requires Ids63(db) && other != n
    ensures var after := MsgStorages.Purged(MsgStorages.State(db, MsgStorages.Empty()), UnderPrefix(n)).db;
            Own(after, other) == Own(db, other) <==> Own(db, other) == map[] || !(n + "." <= other)
  {
    var after := MsgStorages.Purged(MsgStorages.State(db, MsgStorages.Empty()), UnderPrefix(n)).db;
    forall id
      ensures id in Own(after, other) <==> id in Own(db, other) && !(n + "." <= other)
      ensures id in Own(after, other) ==> Own(after, other)[id] == Own(db, other)[id]
    {
      OwnAt(after, other, id);
      OwnAt(db, other, id);
      if (other, id) in db { ScanMeetsIff(n, id, other); }
    }
  }

  function UnderPrefix(n: string): Key -> bool {
    (k: Key) => k.1 < WORD64 && Prefix(n) <= MakeKey(k.1, k.0)
  }

  /** An empty queue a is restored with the message of queue a.b in it. */
  lemma NeighbourRecovered(m: Message, maxInRam: nat)
    requires m.id == 5 && maxInRam > 1
    ensures var db: Db := map[("a.b", 5) := m];
            && Ids63(db) && Own(db, "a") == map[] && Listing([("a.b", 5)], db, "a")
            && RecoverShared(db, "a", [("a.b", 5)], maxInRam).length == 1
  {
    var db: Db := map[("a.b", 5) := m];
    assert Own(db, "a") == map[];
    DottedNeighbourMet(5);
    NeighbourAfterStart();
    assert Met(db, "a") == {("a.b", 5)};
  }

  lemma NeighbourAfterStart()
    ensures !Before(MakeKey(5, "a.b"), MakeKey(0, "a"))
  {
    assert MakeKey(5, "a.b") == Prefix("a") + "b.5";
    assert MakeKey(0, "a") == Prefix("a") + "0";
    BeforeCommon(Prefix("a"), "b.5", "0");
  }
}
