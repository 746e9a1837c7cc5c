/**
 queue.go: a queue whose head lives in RAM and whose overflow lives in two message
 stores, merged back by message ID. The operations are given as functions on the
 queue's fields; class Queue performs them in place. The main results say that the
 two tiers together behave as one plain deque.

 A store is a map from message ID to message whose writes are visible at once.
 */
module BackedQueue {
  import opened Options
  import opened Messages
  import opened Words
  import Qos
  import Seqs

  datatype Metrics = Metrics(total: int, ready: int, unacked: int)

  datatype Queue = Queue(
    active: bool,
    durable: bool,
    maxInRam: nat,
    ram: seq<Message>,
    p: Store,
    t: Store,
    lastStored: nat,
    lastMem: nat,
    swapped: bool,
    length: int,
    metrics: Metrics)

  function New(durable: bool, maxInRam: nat): Queue {
    Queue(false, durable, maxInRam, [], map[], map[], 0, 0, false, 0, Metrics(0, 0, 0))
  }

  /** A queue as NewQueue and Start leave it. */
  function Started(durable: bool, maxInRam: nat): Queue {
    New(durable, maxInRam).(active := true)
  }

  // ---------------------------------------------------------------- operations

  predicate ToDisk(q: Queue, m: Message) {
    q.durable && m.persistent
  }

  function Push(q: Queue, m: Message): Queue {
    if !q.active then q else
    var full := |q.ram| > q.maxInRam;
    var toT := !ToDisk(q, m) && (full || q.swapped);
    var swapNow := (ToDisk(q, m) || toT) && !q.swapped && full;
    var swapped := q.swapped || swapNow;
    var toRam := !full && !swapped;
    q.(p := if ToDisk(q, m) then q.p[m.id := m] else q.p,
       t := if toT then q.t[m.id := m] else q.t,
       swapped := swapped,
       lastStored := if swapNow then m.id else q.lastStored,
       ram := if toRam then q.ram + [m] else q.ram,
       lastMem := if toRam then m.id else q.lastMem,
       length := q.length + 1,
       metrics := q.metrics.(total := q.metrics.total + 1, ready := q.metrics.ready + 1))
  }

  function PopQos(q: Queue, ws: seq<Qos.Window>): (Queue, seq<Qos.Window>, Option<Message>) {
    if !q.active || q.ram == [] then (q, ws, None) else
    var (ws', allowed) := Qos.Charge(ws, q.ram[0].bodySize);
    if allowed then (q.(ram := q.ram[1..], length := q.length - 1), ws', Some(q.ram[0]))
    else (q, ws', None)
  }

  function Requeue(q: Queue, m: Message): Queue {
    if !q.active then q else
    q.(ram := [m] + q.ram,
       p := if ToDisk(q, m) then q.p[m.id := m] else q.p,
       length := q.length + 1,
       metrics := q.metrics.(ready := q.metrics.ready + 1, unacked := q.metrics.unacked - 1))
  }

  function AckMsg(q: Queue, m: Message): Queue {
    if !q.active then q else
    q.(p := if ToDisk(q, m) then q.p - {m.id} else q.p,
       metrics := q.metrics.(total := q.metrics.total - 1, unacked := q.metrics.unacked - 1))
  }

  /** Iteration in key order from an ID on; a limit of 0 means no limit. */
  function Scan(m: Store, from: nat, limit: nat): seq<Message> {
    Limited(limit, InOrder(From(m, from)))
  }

  /** A limit of 0 is none. */
  function Limited(limit: nat, ms: seq<Message>): seq<Message> {
    if limit == 0 then ms else First(limit, ms)
  }

  /** The difference is taken in uint64, so it wraps when the RAM part holds more than maxInRam. */
  function Needle(q: Queue): nat
    requires q.maxInRam < WORD64
  {
    (q.maxInRam - |q.ram|) % WORD64
  }

  /** Does a store that was scanned still count as holding swapped messages? */
  predicate StillSwapped(found: seq<Message>, lastMem: nat) {
    found != [] && found[|found| - 1].id != lastMem
  }

  /** The messages a load pushes into RAM: the first needle found, without the one already there. */
  function Loadable(found: seq<Message>, needle: nat, lastMem: nat): seq<Message> {
    DropId(First(needle, found), lastMem)
  }

  function DropId(s: seq<Message>, id: nat): seq<Message> {
    if s == [] then [] else (if s[0].id == id then [] else [s[0]]) + DropId(s[1..], id)
  }

  /** Stored messages join the RAM part; both positions move to the last of them. */
  function Take(q: Queue, ms: seq<Message>): Queue {
    if ms == [] then q else
    var last := ms[|ms| - 1].id;
    q.(ram := q.ram + ms, lastMem := last, lastStored := last)
  }

  predicate LoadSkips(q: Queue)
    requires q.maxInRam < WORD64
  {
    |q.ram| >= q.maxInRam / 2 || Needle(q) <= 0 || !q.swapped
  }

  function Load(q: Queue): Queue
    requires q.maxInRam < WORD64
  {
    if LoadSkips(q) then q else
    LoadWith(q, Scan(q.p, q.lastStored, Needle(q)), Scan(q.t, q.lastStored, Needle(q)), Needle(q))
  }

  /** The rest of a load, once the two scans have found their messages. */
  function LoadWith(q: Queue, fromP: seq<Message>, fromT: seq<Message>, needle: nat): Queue {
    Take(q, Loadable(MergeById(fromP, fromT), needle, q.lastMem)).(
      swapped := StillSwapped(fromP, q.lastMem) || StillSwapped(fromT, q.lastMem))
  }

  /** Purge on a RAM part whose own purge succeeds. */
  function Purge(q: Queue): Queue {
    q.(ram := [],
       p := if q.durable then map[] else q.p,
       length := 0,
       metrics := q.metrics.(total := q.metrics.total - q.length, ready := q.metrics.ready - q.length))
  }

  /** LoadFromMsgStorage, run once after a restart and before the queue is started. */
  function Recover(q: Queue): Queue {
    RecoverWith(q, Scan(q.p, 0, q.maxInRam), |q.p|)
  }

  /** found is what the scan handed out and stored how many keys the store counts for the queue. */
  function RecoverWith(q: Queue, found: seq<Message>, stored: nat): Queue {
    var length := if |found| >= q.maxInRam then stored else |found|;
    Take(q, found).(
       swapped := q.swapped || |q.ram| + |found| >= q.maxInRam,
       length := length,
       metrics := q.metrics.(total := q.metrics.total + length, ready := q.metrics.ready + length))
  }

  // ---------------------------------------------------------------- the deque behind the two tiers

  function Stored(q: Queue): Store {
    q.p + q.t
  }

  function Pending(q: Queue): seq<Message> {
    InOrder(Above(Stored(q), q.lastMem))
  }

  /** What the queue holds, oldest first: the RAM part, then the stored messages beyond it. */
  function View(q: Queue): seq<Message> {
    q.ram + Pending(q)
  }

  /** A message that has been in RAM: it cannot come back from a store. */
  ghost predicate Seen(q: Queue, m: Message) {
    m.id <= q.lastMem && (m.id in q.t ==> !ToDisk(q, m))
  }

  ghost predicate StoresOk(q: Queue) {
    && Keyed(q.p) && Keyed(q.t)
    && q.p.Keys !! q.t.Keys
    && (forall k :: k in q.t ==> !ToDisk(q, q.t[k]))
    && (!q.durable ==> q.p == map[])
  }

  /** The scan position covers the stored messages beyond RAM, and at most one more. */
  ghost predicate ScanOk(q: Queue) {
    if q.swapped then
      || q.lastStored == q.lastMem
      || (q.lastMem < q.lastStored && forall k :: k in Stored(q) ==> k <= q.lastMem || q.lastStored <= k)
    else
      forall k :: k in Stored(q) ==> k <= q.lastMem
  }

  ghost predicate Inv(q: Queue) {
    && q.maxInRam < WORD64
    && StoresOk(q)
    && ScanOk(q)
    && (forall i :: 0 <= i < |q.ram| ==> Seen(q, q.ram[i]))
    && q.length == |View(q)|
  }

  /** A message whose ID is larger than every ID this queue has seen. */
  ghost predicate Newest(q: Queue, m: Message) {
    && q.lastMem < m.id && q.lastStored < m.id
    && forall k :: k in Stored(q) ==> k < m.id
  }

  lemma NewIsEmpty(durable: bool, maxInRam: nat)
    requires maxInRam < WORD64
    ensures Inv(New(durable, maxInRam)) && View(New(durable, maxInRam)) == []
  {
    InOrderLength(Above(map[], 0));
  }

  lemma NothingAbove(q: Queue)
    requires forall k :: k in Stored(q) ==> k <= q.lastMem
    ensures Pending(q) == []
  {
    assert Above(Stored(q), q.lastMem) == map[];
    InOrderLength(Above(Stored(q), q.lastMem));
  }

  lemma AddToEither(p: Store, t: Store, m: Message, id: nat)
    requires id < m.id && m.id !in p + t
    ensures p[m.id := m] + t == (p + t)[m.id := m] == p + t[m.id := m]
    ensures Above((p + t)[m.id := m], id) == Above(p + t, id)[m.id := m]
  {
  }

  /** Push appends to the view. */
  lemma PushAppends(q: Queue, m: Message)
    requires q.active && Inv(q) && Newest(q, m)
    ensures Inv(Push(q, m)) && View(Push(q, m)) == View(q) + [m]
    ensures forall x :: Seen(q, x) ==> Seen(Push(q, m), x)
  {
    forall i | 0 <= i < |q.ram| ensures q.ram[i].id <= m.id { assert Seen(q, q.ram[i]); }
    PushAppendable(q, m);
  }

  /** No stored message has a larger ID, and neither has one in RAM; or, where the message cannot go to RAM, its ID
      lies beyond everything that has been in RAM and not before the position the next load scans from. */
  ghost predicate Appendable(q: Queue, m: Message) {
    && (forall k :: k in Stored(q) ==> k < m.id)
    && if q.swapped || |q.ram| > q.maxInRam then
         q.lastMem < m.id && (q.swapped && q.lastMem < q.lastStored ==> q.lastStored <= m.id)
       else
         forall i :: 0 <= i < |q.ram| ==> q.ram[i].id <= m.id
  }

  lemma PushAppendable(q: Queue, m: Message)
    requires q.active && Inv(q) && Appendable(q, m)
    ensures Inv(Push(q, m)) && View(Push(q, m)) == View(q) + [m]
  {
    if q.swapped || |q.ram| > q.maxInRam { PushToStore(q, m); } else { PushToRam(q, m); }
  }

  lemma PushToRam(q: Queue, m: Message)
    requires q.active && Inv(q) && Appendable(q, m) && !q.swapped && |q.ram| <= q.maxInRam
    ensures Inv(Push(q, m)) && View(Push(q, m)) == View(q) + [m]
  {
    assert m.id !in Stored(q);
    NothingAbove(q);
    NothingAbove(Push(q, m));
  }

  lemma PushToStore(q: Queue, m: Message)
    requires q.active && Inv(q) && Appendable(q, m) && (q.swapped || |q.ram| > q.maxInRam)
    ensures Inv(Push(q, m)) && View(Push(q, m)) == View(q) + [m]
  {
    PushSpills(q, m);
    SpillKeepsInv(q, m);
    Seqs.Assoc(q.ram, Pending(q), [m]);
  }

  lemma SpillKeepsInv(q: Queue, m: Message)
    requires q.active && Inv(q) && Appendable(q, m) && (q.swapped || |q.ram| > q.maxInRam)
    requires Stored(Push(q, m)) == Stored(q)[m.id := m] && |Pending(Push(q, m))| == |Pending(q)| + 1
    ensures Inv(Push(q, m))
  {
    PushKeepsStores(q, m);
    SpillKeepsScan(q, m);
    var q' := Push(q, m);
    forall i | 0 <= i < |q'.ram| ensures Seen(q', q'.ram[i]) { assert Seen(q, q.ram[i]); }
  }

  lemma PushKeepsStores(q: Queue, m: Message)
    requires StoresOk(q) && m.id !in Stored(q)
    ensures StoresOk(Push(q, m))
  {
  }

  lemma SpillKeepsScan(q: Queue, m: Message)
    requires q.active && ScanOk(q) && Appendable(q, m) && (q.swapped || |q.ram| > q.maxInRam)
    requires Stored(Push(q, m)) == Stored(q)[m.id := m]
    ensures ScanOk(Push(q, m))
  {
  }

  lemma PushSpills(q: Queue, m: Message)
    requires q.active && Appendable(q, m) && (q.swapped || |q.ram| > q.maxInRam)
    ensures Stored(Push(q, m)) == Stored(q)[m.id := m]
    ensures Pending(Push(q, m)) == Pending(q) + [m]
  {
    assert m.id !in Stored(q);
    AddToEither(q.p, q.t, m, q.lastMem);
    OrderAppend(Above(Stored(q), q.lastMem), m);
  }

  /** PopQos returns nothing and changes nothing, or takes the head of the view. */
  lemma PopTakesHead(q: Queue, ws: seq<Qos.Window>)
    requires Inv(q)
    ensures var (q', _, r) := PopQos(q, ws);
            && Inv(q')
            && (r == None ==> q' == q)
            && (r.Some? ==> View(q) == [r.value] + View(q') && Seen(q', r.value))
  {
    var (q', _, r) := PopQos(q, ws);
    if r.Some? {
      assert q.ram == [q.ram[0]] + q'.ram;
      assert View(q) == [q.ram[0]] + View(q');
    }
  }

  lemma RequeuePrepends(q: Queue, m: Message)
    requires q.active && Inv(q) && Seen(q, m)
    ensures Inv(Requeue(q, m)) && View(Requeue(q, m)) == [m] + View(q)
  {
    var q' := Requeue(q, m);
    assert Above(Stored(q'), q.lastMem) == Above(Stored(q), q.lastMem);
    assert View(q') == [m] + View(q);
  }

  lemma AckKeepsView(q: Queue, m: Message)
    requires q.active && Inv(q) && Seen(q, m)
    ensures Inv(AckMsg(q, m)) && View(AckMsg(q, m)) == View(q)
  {
    assert Above(Stored(AckMsg(q, m)), q.lastMem) == Above(Stored(q), q.lastMem);
  }

  // ---------------------------------------------------------------- loading from the stores

  /** A scan position at lastMem, or beyond it with nothing stored in between. */
  ghost predicate Covers(m: Store, from: nat, lastMem: nat) {
    || from == lastMem
    || (lastMem < from && forall k :: k in m ==> k <= lastMem || from <= k)
  }

  /** A scan finds the message at lastMem again when the store still has it, then all those beyond. */
  lemma ScanSplits(m: Store, from: nat, lastMem: nat)
    requires Keyed(m) && Covers(m, from, lastMem)
    ensures InOrder(From(m, from)) ==
              (if from == lastMem && lastMem in m then [m[lastMem]] else []) + InOrder(Above(m, lastMem))
  {
    if from == lastMem && lastMem in m {
      assert From(m, from) == Above(m, lastMem)[lastMem := m[lastMem]];
      OrderPrepend(Above(m, lastMem), m[lastMem]);
    } else {
      assert From(m, from) == Above(m, lastMem);
    }
  }

  lemma NeedleAtLeastTwo(q: Queue)
    requires q.maxInRam < WORD64 && !LoadSkips(q)
    ensures Needle(q) == q.maxInRam - |q.ram| >= 2
  {
  }

  /** How many of the pending messages one load may take. */
  function LoadSize(q: Queue): int
    requires q.maxInRam < WORD64
  {
    if q.lastStored == q.lastMem && q.lastMem in Stored(q) then Needle(q) - 1 else Needle(q)
  }

  lemma {:induction false} DropIdAbsent(s: seq<Message>, id: nat)
    requires forall i :: 0 <= i < |s| ==> s[i].id != id
    ensures DropId(s, id) == s
  {
    if s != [] { DropIdAbsent(s[1..], id); }
  }

  lemma PendingAbove(q: Queue, i: nat)
    requires StoresOk(q) && i < |Pending(q)|
    ensures q.lastMem < Pending(q)[i].id && Pending(q)[i].id in Stored(q)
    ensures Stored(q)[Pending(q)[i].id] == Pending(q)[i]
  {
    InOrderMember(Above(Stored(q), q.lastMem), Pending(q)[i]);
  }

  lemma MergedScan(q: Queue, n: nat)
    requires StoresOk(q) && n > 0
    ensures First(n, MergeById(Scan(q.p, q.lastStored, n), Scan(q.t, q.lastStored, n)))
            == First(n, InOrder(From(Stored(q), q.lastStored)))
  {
    var p, t := From(q.p, q.lastStored), From(q.t, q.lastStored);
    FirstOfMerge(n, n, n, InOrder(p), InOrder(t));
    MergeOrders(p, t);
    assert p + t == From(Stored(q), q.lastStored);
  }

  ghost function Loaded(q: Queue): seq<Message>
    requires q.maxInRam < WORD64 && !LoadSkips(q)
  {
    Loadable(MergeById(Scan(q.p, q.lastStored, Needle(q)), Scan(q.t, q.lastStored, Needle(q))), Needle(q), q.lastMem)
  }

  lemma FirstOfCons(n: nat, x: Message, ms: seq<Message>)
    requires n >= 1
    ensures First(n, [x] + ms) == [x] + First(n - 1, ms) && First(n, [x] + ms)[1..] == First(n - 1, ms)
  {
  }

  /** One load takes exactly the oldest pending messages: the per-store limits, the merge and the cut
      together select the first of the union. */
  lemma LoadTakesOldest(q: Queue)
    requires Inv(q) && !LoadSkips(q)
    ensures LoadSize(q) >= 1
    ensures Loaded(q) == First(LoadSize(q), Pending(q))
  {
    NeedleAtLeastTwo(q);
    MergedScan(q, Needle(q));
    ScanSplits(Stored(q), q.lastStored, q.lastMem);
    var there := if q.lastStored == q.lastMem && q.lastMem in Stored(q) then [Stored(q)[q.lastMem]] else [];
    forall i | 0 <= i < |Pending(q)| ensures Pending(q)[i].id != q.lastMem { PendingAbove(q, i); }
    DropsTheOneThere(Needle(q), there, Pending(q), q.lastMem);
  }

  lemma DropsTheOneThere(n: nat, there: seq<Message>, ms: seq<Message>, id: nat)
    requires n >= 1 && |there| <= 1 && (there != [] ==> there[0].id == id)
    requires forall i :: 0 <= i < |ms| ==> ms[i].id != id
    ensures DropId(First(n, there + ms), id) == First(n - |there|, ms)
  {
    DropIdAbsent(First(n - |there|, ms), id);
    if there == [] {
      assert there + ms == ms;
    } else {
      assert there == [there[0]];
      FirstOfCons(n, there[0], ms);
    }
  }

  lemma StillSwappedIff(m: Store, from: nat, lastMem: nat, n: nat)
    requires Keyed(m) && Covers(m, from, lastMem) && n >= 2
    ensures StillSwapped(Scan(m, from, n), lastMem) <==> exists k :: k in m && lastMem < k
  {
    var above := Above(m, lastMem);
    ScanSplits(m, from, lastMem);
    InOrderLength(above);
    if k :| k in m && lastMem < k {
      assert k in above;
      assert InOrder(above) != [];
      var found := Scan(m, from, n);
      var last := found[|found| - 1];
      assert last in InOrder(above);
      InOrderMember(above, last);
    } else {
      assert above == map[];
    }
  }

  /** The flag drops exactly when the scan finds nothing beyond RAM. */
  lemma LoadKeepsFlagIff(q: Queue)
    requires Inv(q) && !LoadSkips(q)
    ensures Load(q).swapped <==> Pending(q) != []
  {
    FoundBeyondIff(q);
  }

  /** One of the two scans ends beyond RAM. */
  predicate FoundBeyond(q: Queue)
    requires q.maxInRam < WORD64
  {
    || StillSwapped(Scan(q.p, q.lastStored, Needle(q)), q.lastMem)
    || StillSwapped(Scan(q.t, q.lastStored, Needle(q)), q.lastMem)
  }

  lemma FoundBeyondIff(q: Queue)
    requires Inv(q) && !LoadSkips(q)
    ensures FoundBeyond(q) <==> Pending(q) != []
  {
    NeedleAtLeastTwo(q);
    StillSwappedIff(q.p, q.lastStored, q.lastMem, Needle(q));
    StillSwappedIff(q.t, q.lastStored, q.lastMem, Needle(q));
    InOrderLength(Above(Stored(q), q.lastMem));
    if k :| k in Stored(q) && q.lastMem < k {
      assert k in Above(Stored(q), q.lastMem);
    } else {
      assert Above(Stored(q), q.lastMem) == map[];
    }
  }

  /** The queue after its k oldest pending messages moved to RAM. */
  function Advance(q: Queue, k: nat, swapped: bool): Queue
    requires k <= |Pending(q)|
  {
    Take(q, Pending(q)[..k]).(swapped := swapped)
  }

  function Moved(q: Queue): (k: nat)
    requires q.maxInRam < WORD64
    ensures k <= |Pending(q)|
  {
    if LoadSkips(q) || LoadSize(q) < 0 then 0
    else if LoadSize(q) < |Pending(q)| then LoadSize(q) else |Pending(q)|
  }

  lemma LoadAdvances(q: Queue)
    requires Inv(q) && !LoadSkips(q)
    ensures Load(q) == Advance(q, Moved(q), Pending(q) != [])
    ensures Pending(q) != [] ==> Moved(q) >= 1
  {
    LoadTakesOldest(q);
    LoadKeepsFlagIff(q);
    assert Loaded(q) == Pending(q)[..Moved(q)];
  }

  lemma AdvancePending(q: Queue, k: nat, swapped: bool)
    requires StoresOk(q) && k <= |Pending(q)|
    ensures Pending(Advance(q, k, swapped)) == Pending(q)[k..]
    ensures View(Advance(q, k, swapped)) == View(q)
  {
    var q' := Advance(q, k, swapped);
    if k > 0 {
      PendingAbove(q, k - 1);
      OrderSuffix(Above(Stored(q), q.lastMem), k);
      assert Above(Above(Stored(q), q.lastMem), q'.lastMem) == Above(Stored(q), q'.lastMem);
    }
    Seqs.Assoc(q.ram, Pending(q)[..k], Pending(q)[k..]);
    Seqs.Cut(Pending(q), k);
  }

  lemma AdvanceSeen(q: Queue, k: nat, swapped: bool)
    requires StoresOk(q) && k <= |Pending(q)|
    requires forall i :: 0 <= i < |q.ram| ==> Seen(q, q.ram[i])
    ensures forall m :: Seen(q, m) ==> Seen(Advance(q, k, swapped), m)
    ensures forall i :: 0 <= i < |q.ram| + k ==> Seen(Advance(q, k, swapped), Advance(q, k, swapped).ram[i])
  {
    var q' := Advance(q, k, swapped);
    InOrderAscends(Above(Stored(q), q.lastMem));
    if k > 0 { PendingAbove(q, k - 1); }
    forall i | 0 <= i < |q'.ram| ensures Seen(q', q'.ram[i]) {
      if i >= |q.ram| { PendingAbove(q, i - |q.ram|); }
    }
  }

  /** A load changes nothing that a client of the queue could see. */
  lemma LoadKeepsView(q: Queue)
    requires Inv(q)
    ensures Inv(Load(q)) && View(Load(q)) == View(q)
    ensures forall m :: Seen(q, m) ==> Seen(Load(q), m)
  {
    if !LoadSkips(q) {
      LoadAdvances(q);
      AdvancePending(q, Moved(q), Pending(q) != []);
      AdvanceSeen(q, Moved(q), Pending(q) != []);
      if Pending(q) == [] { NonePending(q); }
    }
  }

  lemma NonePending(q: Queue)
    requires Pending(q) == []
    ensures forall k :: k in Stored(q) ==> k <= q.lastMem
  {
    InOrderLength(Above(Stored(q), q.lastMem));
    forall k | k in Stored(q) ensures k <= q.lastMem {
      assert k in Above(Stored(q), q.lastMem) || k <= q.lastMem;
    }
  }

  /** With room for two messages in RAM no message is stranded: after a load, a queue that holds
      anything has its head in RAM. */
  lemma LoadMakesProgress(q: Queue)
    requires Inv(q) && q.maxInRam >= 2 && View(q) != []
    ensures Load(q).ram != [] && Load(q).ram[0] == View(q)[0]
  {
    if LoadSkips(q) {
      if q.ram == [] { NothingAbove(q); }
    } else {
      LoadAdvances(q);
      LoadKeepsView(q);
    }
  }

  // ---------------------------------------------------------------- whole runs

  datatype Op = OpPush(m: Message) | OpPop(ws: seq<Qos.Window>) | OpRequeue(m: Message) | OpAck(m: Message) | OpLoad

  function Step(q: Queue, op: Op): (Queue, Option<Message>)
    requires q.maxInRam < WORD64
  {
    match op
    case OpPush(m) => (Push(q, m), None)
    case OpPop(ws) => var (q', _, r) := PopQos(q, ws); (q', r)
    case OpRequeue(m) => (Requeue(q, m), None)
    case OpAck(m) => (AckMsg(q, m), None)
    case OpLoad => (Load(q), None)
  }

  /** The last state and what each operation returned. */
  function Run(q: Queue, ops: seq<Op>): (Queue, seq<Option<Message>>)
    requires q.maxInRam < WORD64
    decreases |ops|
  {
    if ops == [] then (q, []) else
    var (q1, r) := Step(q, ops[0]);
    var rest := Run(q1, ops[1..]);
    (rest.0, [r] + rest.1)
  }

  /** What callers promise: IDs increase from push to push, and only a message that was delivered
      and not yet settled is acknowledged or requeued. */
  ghost predicate Legal(top: nat, out: set<Message>, ops: seq<Op>, rs: seq<Option<Message>>)
    requires |ops| == |rs|
    decreases |ops|
  {
    ops == [] ||
    match ops[0]
    case OpPush(m) => top < m.id && Legal(m.id, out, ops[1..], rs[1..])
    case OpPop(_) => Legal(top, if rs[0].Some? then out + {rs[0].value} else out, ops[1..], rs[1..])
    case OpRequeue(m) => m in out && Legal(top, out - {m}, ops[1..], rs[1..])
    case OpAck(m) => m in out && Legal(top, out - {m}, ops[1..], rs[1..])
    case OpLoad => Legal(top, out, ops[1..], rs[1..])
  }

  /** The same history on a plain deque: its last contents, or None when a result could not have come from it.
      A pop may come back empty-handed, but what it returns is the head. */
  function DequeAfter(xs: seq<Message>, ops: seq<Op>, rs: seq<Option<Message>>): Option<seq<Message>>
    requires |ops| == |rs|
    decreases |ops|
  {
    if ops == [] then Some(xs) else
    match ops[0]
    case OpPush(m) => DequeAfter(xs + [m], ops[1..], rs[1..])
    case OpPop(_) =>
      if rs[0] == None then DequeAfter(xs, ops[1..], rs[1..])
      else if xs == [] || xs[0] != rs[0].value then None
      else DequeAfter(xs[1..], ops[1..], rs[1..])
    case OpRequeue(m) => DequeAfter([m] + xs, ops[1..], rs[1..])
    case OpAck(_) => DequeAfter(xs, ops[1..], rs[1..])
    case OpLoad => DequeAfter(xs, ops[1..], rs[1..])
  }

  ghost predicate Bounded(q: Queue, top: nat) {
    && q.lastMem <= top && q.lastStored <= top
    && (forall k :: k in Stored(q) ==> k <= top)
  }

  /** top bounds every ID the queue has seen and out holds what consumers have not settled. */
  ghost predicate RunInv(q: Queue, top: nat, out: set<Message>) {
    && Inv(q) && q.active
    && Bounded(q, top)
    && (forall m :: m in out ==> Seen(q, m))
  }

  lemma {:induction false} RunLength(q: Queue, ops: seq<Op>)
    requires q.maxInRam < WORD64
    ensures |Run(q, ops).1| == |ops|
    decreases |ops|
  {
    if ops != [] { RunLength(Step(q, ops[0]).0, ops[1..]); }
  }

  lemma RunUnfolds(q: Queue, ops: seq<Op>)
    requires q.maxInRam < WORD64 && ops != []
    ensures var (q1, r) := Step(q, ops[0]);
            && q1.maxInRam < WORD64 && Run(q, ops).0 == Run(q1, ops[1..]).0
            && |Run(q1, ops[1..]).1| == |ops| - 1 && |Run(q, ops).1| == |ops|
            && Run(q, ops).1[0] == r && Run(q, ops).1[1..] == Run(q1, ops[1..]).1
  {
    var (q1, r) := Step(q, ops[0]);
    RunLength(q1, ops[1..]);
  }

  lemma PushStep(q: Queue, top: nat, out: set<Message>, m: Message)
    requires RunInv(q, top, out) && top < m.id
    ensures RunInv(Push(q, m), m.id, out) && View(Push(q, m)) == View(q) + [m]
  {
    PushAppends(q, m);
  }

  lemma PopStep(q: Queue, top: nat, out: set<Message>, ws: seq<Qos.Window>)
    requires RunInv(q, top, out)
    ensures var (q', _, r) := PopQos(q, ws);
            && RunInv(q', top, if r.Some? then out + {r.value} else out)
            && View(q) == (if r.Some? then [r.value] else []) + View(q')
  {
    PopTakesHead(q, ws);
  }

  lemma RequeueStep(q: Queue, top: nat, out: set<Message>, m: Message)
    requires RunInv(q, top, out) && m in out
    ensures RunInv(Requeue(q, m), top, out - {m}) && View(Requeue(q, m)) == [m] + View(q)
  {
    RequeuePrepends(q, m);
    assert Seen(q, m);
  }

  lemma AckStep(q: Queue, top: nat, out: set<Message>, m: Message)
    requires RunInv(q, top, out) && m in out
    ensures RunInv(AckMsg(q, m), top, out - {m}) && View(AckMsg(q, m)) == View(q)
  {
    AckKeepsView(q, m);
    assert Seen(q, m);
  }

  lemma LoadStep(q: Queue, top: nat, out: set<Message>)
    requires RunInv(q, top, out)
    ensures RunInv(Load(q), top, out) && View(Load(q)) == View(q)
  {
    LoadKeepsView(q);
    LoadBounded(q, top);
  }

  lemma LoadBounded(q: Queue, top: nat)
    requires Inv(q) && Bounded(q, top)
    ensures Bounded(Load(q), top)
  {
    if !LoadSkips(q) {
      LoadAdvances(q);
      AdvanceBounded(q, Moved(q), Pending(q) != [], top);
    }
  }

  lemma AdvanceBounded(q: Queue, k: nat, swapped: bool, top: nat)
    requires StoresOk(q) && Bounded(q, top) && k <= |Pending(q)|
    ensures Bounded(Advance(q, k, swapped), top)
  {
    assert Stored(Advance(q, k, swapped)) == Stored(q);
    if k > 0 { PendingAbove(q, k - 1); }
  }

  lemma StartedRuns(durable: bool, maxInRam: nat)
    requires maxInRam < WORD64
    ensures RunInv(Started(durable, maxInRam), 0, {}) && View(Started(durable, maxInRam)) == []
  {
    NewIsEmpty(durable, maxInRam);
    assert View(Started(durable, maxInRam)) == View(New(durable, maxInRam));
  }

  /** The two-tier queue refines a plain deque over every legal run: pushes append, pops take the head or
      nothing, requeues prepend, and acknowledgements and loads are invisible. */
  lemma {:induction false} RunRefinesDeque(q: Queue, top: nat, out: set<Message>, ops: seq<Op>)
    requires RunInv(q, top, out)
    requires |Run(q, ops).1| == |ops| && Legal(top, out, ops, Run(q, ops).1)
    ensures Inv(Run(q, ops).0)
    ensures DequeAfter(View(q), ops, Run(q, ops).1) == Some(View(Run(q, ops).0))
    ensures Run(q, ops).0.length == |View(Run(q, ops).0)|
    decreases |ops|
  {
    if ops != [] {
      var op := ops[0];
      var (q1, r) := Step(q, op);
      RunUnfolds(q, ops);
      match op
      case OpPush(m) =>
        PushStep(q, top, out, m);
        RunRefinesDeque(q1, m.id, out, ops[1..]);
      case OpPop(ws) =>
        PopStep(q, top, out, ws);
        RunRefinesDeque(q1, top, if r.Some? then out + {r.value} else out, ops[1..]);
      case OpRequeue(m) =>
        RequeueStep(q, top, out, m);
        RunRefinesDeque(q1, top, out - {m}, ops[1..]);
      case OpAck(m) =>
        AckStep(q, top, out, m);
        RunRefinesDeque(q1, top, out - {m}, ops[1..]);
      case OpLoad =>
        LoadStep(q, top, out);
        RunRefinesDeque(q1, top, out, ops[1..]);
    }
  }

  /** What n pops return when each is preceded by a load. */
  function Drain(q: Queue, n: nat): seq<Option<Message>>
    requires q.maxInRam < WORD64
    decreases n
  {
    if n == 0 then [] else
    var (q', _, r) := PopQos(Load(q), []);
    [r] + Drain(q', n - 1)
  }

  /** Each message, as a pop returns it. */
  function Answers(ms: seq<Message>): seq<Option<Message>> {
    if ms == [] then [] else [Some(ms[0])] + Answers(ms[1..])
  }

  /** However far the queue outgrew its RAM part, it delivers everything it holds, in order. */
  lemma DrainDeliversAll(q: Queue)
    requires Inv(q) && q.active && q.maxInRam >= 2
    ensures Drain(q, |View(q)|) == Answers(View(q))
  {
    var ok := (s: Queue) => Inv(s) && s.active && 2 <= s.maxInRam < WORD64;
    forall s {:trigger Load(s)} | ok(s) && View(s) != [] ensures HeadLeaves(s, ok, View) { LoadedPopTakesHead(s); }
    DrainsInOrder(q, |View(q)|, ok, View);
  }

  /** Loading and popping hands out the head of the view and leaves the rest. */
  ghost predicate HeadLeaves(s: Queue, ok: Queue -> bool, view: Queue -> seq<Message>) {
    && s.maxInRam < WORD64 && view(s) != []
    && var (s', _, r) := PopQos(Load(s), []);
       ok(s') && s'.maxInRam < WORD64 && r == Some(view(s)[0]) && view(s') == view(s)[1..]
  }

  ghost predicate HeadsLeave(ok: Queue -> bool, view: Queue -> seq<Message>) {
    forall s {:trigger Load(s)} :: ok(s) && view(s) != [] ==> HeadLeaves(s, ok, view)
  }

  lemma {:induction false} DrainsInOrder(q: Queue, n: nat, ok: Queue -> bool, view: Queue -> seq<Message>)
    requires ok(q) && n == |view(q)| && q.maxInRam < WORD64
    requires HeadsLeave(ok, view)
    ensures Drain(q, n) == Answers(view(q))
    decreases n
  {
    if n > 0 {
      DrainsInOrder(PopQos(Load(q), []).0, n - 1, ok, view);
    }
  }

  lemma LoadedPopTakesHead(q: Queue)
    requires Inv(q) && q.active && q.maxInRam >= 2 && View(q) != []
    ensures var (q', _, r) := PopQos(Load(q), []);
            && Inv(q') && q'.active && q'.maxInRam == q.maxInRam
            && r == Some(View(q)[0]) && View(q') == View(q)[1..]
  {
    LoadMakesProgress(q);
    LoadKeepsView(q);
    PopTakesHead(Load(q), []);
  }

  /** A push appends, and leaves the queue fit for all the other results, exactly when its ID is appendable. A message
      that carries an older ID, because another queue numbered it first, can be lost, overtake, or bring back what
      was delivered already. */
  lemma PushAppendsIff(q: Queue, m: Message)
    requires q.active && Inv(q) && m.id !in Stored(q)
    ensures Inv(Push(q, m)) && View(Push(q, m)) == View(q) + [m] <==> Appendable(q, m)
  {
    if Appendable(q, m) {
      PushAppendable(q, m);
    } else if Inv(Push(q, m)) && View(Push(q, m)) == View(q) + [m] {
      if q.swapped || |q.ram| > q.maxInRam { StoredIsAppendable(q, m); } else { TakenIsAppendable(q, m); }
    }
  }

  lemma TakenIsAppendable(q: Queue, m: Message)
    requires q.active && Inv(Push(q, m)) && m.id !in Stored(q) && !q.swapped && |q.ram| <= q.maxInRam
    ensures Appendable(q, m)
  {
    var q' := Push(q, m);
    forall k | k in Stored(q) ensures k < m.id { assert k in Stored(q'); }
    forall i | 0 <= i < |q.ram| ensures q.ram[i].id <= m.id { assert q'.ram[i] == q.ram[i] && Seen(q', q'.ram[i]); }
  }

  lemma StoredIsAppendable(q: Queue, m: Message)
    requires q.active && Inv(q) && m.id !in Stored(q) && (q.swapped || |q.ram| > q.maxInRam)
    requires Inv(Push(q, m)) && View(Push(q, m)) == View(q) + [m]
    ensures Appendable(q, m)
  {
    PushStores(q, m);
    assert m.id <= q.lastMem ==> Pending(Push(q, m)) == Pending(q);
    forall k | k in Stored(q) ensures k < m.id {
      if k > q.lastMem { LastIsLargest(q, Push(q, m), k, m); }
    }
    assert m.id in Stored(Push(q, m));
  }

  lemma PushStores(q: Queue, m: Message)
    requires q.active && StoresOk(q) && (q.swapped || |q.ram| > q.maxInRam) && m.id !in Stored(q)
    ensures Push(q, m).ram == q.ram && Push(q, m).lastMem == q.lastMem && Push(q, m).swapped
    ensures Stored(Push(q, m)) == Stored(q)[m.id := m] && Keyed(Stored(Push(q, m)))
    ensures Above(Stored(Push(q, m)), q.lastMem) ==
              if m.id <= q.lastMem then Above(Stored(q), q.lastMem) else Above(Stored(q), q.lastMem)[m.id := m]
  {
    assert Stored(Push(q, m)) == Stored(q)[m.id := m];
  }

  lemma LastIsLargest(q: Queue, q': Queue, k: nat, m: Message)
    requires StoresOk(q) && Keyed(Stored(q')) && q'.ram == q.ram && k in Stored(q) && k > q.lastMem
    requires View(q') == View(q) + [m]
    ensures k < m.id
  {
    InOrderAscends(Above(Stored(q'), q'.lastMem));
    var n, above := |q.ram|, Above(Stored(q), q.lastMem);
    InOrderMember(above, above[k]);
    var i :| 0 <= i < |Pending(q)| && Pending(q)[i] == above[k];
    assert Pending(q') == View(q')[n..] && Pending(q) == View(q)[n..];
    assert Pending(q') == Pending(q) + [m];
    assert Pending(q')[i] == Pending(q)[i] && Pending(q')[|Pending(q)|] == m;
  }

  /** Purging empties the queue exactly when no transient message is waiting in its store. */
  lemma PurgeEmptiesIff(q: Queue)
    requires Inv(q)
    ensures View(Purge(q)) == [] <==> forall k :: k in q.t ==> k <= q.lastMem
    ensures Purge(q).length == |View(Purge(q))| <==> forall k :: k in q.t ==> k <= q.lastMem
  {
    var q' := Purge(q);
    assert Stored(q') == q.t;
    if Pending(q') == [] { NonePending(q'); }
    if forall k :: k in q.t ==> k <= q.lastMem { NothingAbove(q'); }
  }

  /** A queue as NewQueue builds it after a restart: the persistent store survived, the transient one did not. */
  function Restarted(p: Store, maxInRam: nat): Queue {
    New(true, maxInRam).(p := p)
  }

  /** Recovery puts every surviving message back in ID order and establishes the spill invariant,
      whether or not they all fit in RAM. */
  lemma RecoverRebuilds(p: Store, maxInRam: nat)
    requires Keyed(p) && maxInRam < WORD64
    ensures var q := Recover(Restarted(p, maxInRam));
            Inv(q) && View(q) == InOrder(p) && q.length == |p| && q.p == p
  {
    var q := Recover(Restarted(p, maxInRam));
    RecoverTakesPrefix(p, maxInRam);
    PrefixView(q);
    if !q.swapped { NonePending(q); }
    PrefixSeen(q);
  }

  /** RAM holds a prefix of the stored messages and lastMem is its last ID. */
  ghost predicate PrefixInRam(q: Queue) {
    && q.t == map[] && Keyed(q.p) && Stored(q) == q.p
    && |InOrder(q.p)| == |q.p|
    && |q.ram| <= |q.p| && q.ram == InOrder(q.p)[..|q.ram|]
    && (if q.ram == [] then q.p == map[] else q.lastMem == q.ram[|q.ram| - 1].id)
  }

  lemma PrefixPending(q: Queue)
    requires PrefixInRam(q)
    ensures Pending(q) == InOrder(q.p)[|q.ram|..]
  {
    var k := |q.ram|;
    if k > 0 {
      assert q.ram[k - 1] == InOrder(q.p)[k - 1];
      OrderSuffix(q.p, k);
    } else {
      NothingAbove(q);
    }
  }

  lemma PrefixView(q: Queue)
    requires PrefixInRam(q)
    ensures View(q) == InOrder(q.p) && Pending(q) == InOrder(q.p)[|q.ram|..]
  {
    PrefixPending(q);
    Seqs.Cut(InOrder(q.p), |q.ram|);
  }

  lemma PrefixSeen(q: Queue)
    requires PrefixInRam(q)
    ensures forall i :: 0 <= i < |q.ram| ==> Seen(q, q.ram[i])
  {
    InOrderAscends(q.p);
    if q.ram != [] { AscendingSeen(q, InOrder(q.p)); }
  }

  lemma AscendingSeen(q: Queue, ms: seq<Message>)
    requires q.t == map[] && 0 < |q.ram| <= |ms| && q.ram == ms[..|q.ram|] && q.lastMem == q.ram[|q.ram| - 1].id
    requires forall i, j :: 0 <= i < j < |ms| ==> ms[i].id < ms[j].id
    ensures forall i :: 0 <= i < |q.ram| ==> Seen(q, q.ram[i])
  {
    var last := |q.ram| - 1;
    forall i | 0 <= i < |q.ram| ensures Seen(q, q.ram[i]) { assert q.ram[i] == ms[i] && q.ram[last] == ms[last]; }
  }

  lemma RecoverTakesPrefix(p: Store, maxInRam: nat)
    requires Keyed(p) && maxInRam < WORD64
    ensures var q := Recover(Restarted(p, maxInRam));
            && PrefixInRam(q) && q.p == p && q.length == |p|
            && (q.swapped || |q.ram| == |p|)
            && q.lastStored == q.lastMem
  {
    assert From(p, 0) == p;
    InOrderLength(p);
    TakesPrefix(p, maxInRam, InOrder(p));
  }

  lemma TakesPrefix(p: Store, maxInRam: nat, all: seq<Message>)
    requires |all| == |p|
    ensures var q := RecoverWith(Restarted(p, maxInRam), Limited(maxInRam, all), |p|);
            && q.p == p && q.t == map[] && Stored(q) == p && q.length == |p|
            && |q.ram| <= |all| && q.ram == all[..|q.ram|] && (q.swapped || |q.ram| == |p|)
            && q.lastStored == q.lastMem
            && (if q.ram == [] then p == map[] else q.lastMem == q.ram[|q.ram| - 1].id)
  {
    var found := Limited(maxInRam, all);
    assert [] + found == found && found == all[..|found|];
  }
}
