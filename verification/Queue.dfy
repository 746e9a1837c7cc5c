/**
 queue.go with its fields updated in place. Each method is proved to perform the
 step of the same name of module BackedQueue, whose lemmas then speak about this code.
 The RAM part is the row of slots that class SafeQueue is proved to keep on the heap.
 */
module Queues {
  import opened Options
  import opened Messages
  import opened Words
  import Ring
  import Qos
  import BackedQueue
  import LoadRace

  /** Two ascending lists into one, by index. */
  method MergeSortedMessageSlices(A: seq<Message>, B: seq<Message>) returns (result: array<Message>)
    ensures fresh(result) && result[..] == MergeById(A, B)
  {
    var blank := Message(0, false, 0, "");
    result := new Message[|A| + |B|](_ => blank);
    var idxA, idxB := 0, 0;
    for i := 0 to result.Length
      invariant idxA == TakenA(A, B, i) && idxB == i - idxA
      invariant forall n :: 0 <= n < i ==> result[n] == Picked(A, B, n)
    {
      if idxA >= |A| {
        result[i] := B[idxB];
        idxB := idxB + 1;
      } else if idxB >= |B| {
        result[i] := A[idxA];
        idxA := idxA + 1;
      } else if A[idxA].id < B[idxB].id {
        result[i] := A[idxA];
        idxA := idxA + 1;
      } else {
        result[i] := B[idxB];
        idxB := idxB + 1;
      }
    }
    PickedIsMerged(A, B, result[..]);
  }

  /** Does A give the next message after i of A and j of B? */
  predicate NextFromA(A: seq<Message>, B: seq<Message>, i: nat, j: nat) {
    j >= |B| || (i < |A| && A[i].id < B[j].id)
  }

  /** How many of the first n merged messages come from A. */
  function TakenA(A: seq<Message>, B: seq<Message>, n: nat): (k: nat)
    requires n <= |A| + |B|
    ensures k <= |A| && 0 <= n - k <= |B|
  {
    if n == 0 then 0 else
    var k := TakenA(A, B, n - 1);
    if NextFromA(A, B, k, n - 1 - k) then k + 1 else k
  }

  /** The message at place n, found by index. */
  function Picked(A: seq<Message>, B: seq<Message>, n: nat): Message
    requires n < |A| + |B|
  {
    var k := TakenA(A, B, n);
    if NextFromA(A, B, k, n - k) then A[k] else B[n - k]
  }

  /** What holds at first and is kept when the next message is taken holds after any number of them. */
  lemma {:induction false} TakingKeeps(A: seq<Message>, B: seq<Message>, ok: (nat, nat) -> bool, n: nat)
    requires n <= |A| + |B| && ok(0, 0)
    requires forall i: nat, j: nat {:trigger NextFromA(A, B, i, j)} ::
               i <= |A| && j <= |B| && i + j < |A| + |B| && ok(i, j) ==>
                 if NextFromA(A, B, i, j) then ok(i + 1, j) else ok(i, j + 1)
    ensures ok(TakenA(A, B, n), n - TakenA(A, B, n))
  {
    if n > 0 { TakingKeeps(A, B, ok, n - 1); }
  }

  lemma {:induction false} MergedAt(merged: seq<Message>, A: seq<Message>, B: seq<Message>, n: nat)
    requires n < |A| + |B| == |merged| && Merging(merged, A, B, 0, 0)
    ensures merged[n] == Picked(A, B, n)
  {
    var ok := (i: nat, j: nat) => Merging(merged, A, B, i, j);
    forall i: nat, j: nat {:trigger NextFromA(A, B, i, j)}
      | i <= |A| && j <= |B| && i + j < |A| + |B| && ok(i, j)
      ensures if NextFromA(A, B, i, j) then ok(i + 1, j) else ok(i, j + 1)
    {
      MergeAt(merged, A, B, i, j);
    }
    TakingKeeps(A, B, ok, n);
    var k := TakenA(A, B, n);
    MergeAt(merged, A, B, k, n - k);
  }

  lemma {:induction false} PickedIsMerged(A: seq<Message>, B: seq<Message>, s: seq<Message>)
    requires |s| == |A| + |B| && forall n :: 0 <= n < |s| ==> s[n] == Picked(A, B, n)
    ensures s == MergeById(A, B)
  {
    var merged := MergeById(A, B);
    MergeLength(A, B);
    assert A[0..] == A && B[0..] == B;
    forall n | 0 <= n < |s| ensures s[n] == merged[n] { MergedAt(merged, A, B, n); }
  }

  /** i and j messages have been taken, and what is left merges to the rest. */
  predicate Merging(merged: seq<Message>, A: seq<Message>, B: seq<Message>, i: nat, j: nat) {
    i <= |A| && j <= |B| && i + j <= |merged| && merged[i + j..] == MergeById(A[i..], B[j..])
  }

  lemma MergeAt(merged: seq<Message>, A: seq<Message>, B: seq<Message>, i: nat, j: nat)
    requires Merging(merged, A, B, i, j) && i + j < |A| + |B| == |merged|
    ensures if NextFromA(A, B, i, j)
            then merged[i + j] == A[i] && Merging(merged, A, B, i + 1, j)
            else merged[i + j] == B[j] && Merging(merged, A, B, i, j + 1)
  {
    MergeStep(A, B, i, j);
    var rest := merged[i + j..];
    assert merged[i + j] == rest[0] && merged[i + j + 1..] == rest[1..];
  }

  /** The merged slice cut at needle. */
  method FirstSorted(A: seq<Message>, B: seq<Message>, needle: nat) returns (found: seq<Message>)
    ensures found == First(needle, MergeById(A, B))
  {
    var sorted := MergeSortedMessageSlices(A, B);
    var pos := if sorted.Length <= needle then sorted.Length else needle;
    found := sorted[..pos];
  }

  /** The two goroutines of a load, in any interleaving: schedule tells which one moves next, and the persistent one
      goes first when it is used up. Each collects what its scan hands out, leaves the ID in the variable they share,
      and at its end compares that variable with lastMem. */
  method Walk(pFound: seq<Message>, tFound: seq<Message>, lastMem: nat, schedule: seq<bool>)
    returns (pMessages: seq<Message>, tMessages: seq<Message>, swapped: bool)
    ensures pMessages == pFound && tMessages == tFound
    ensures exists taken :: LoadRace.Ends(LoadRace.Ids(pFound), LoadRace.Ids(tFound), lastMem, taken, swapped)
    ensures forall s :: LoadRace.Ends(LoadRace.Ids(pFound), LoadRace.Ids(tFound), lastMem, schedule, s) ==> s == swapped
  {
    ghost var ps, ts := LoadRace.Ids(pFound), LoadRace.Ids(tFound);
    ghost var taken: seq<bool> := [];
    pMessages, tMessages := [], [];
    var swappedToPersistent, swappedToTransient := true, true;
    var pDone, tDone := false, false;
    var lastIteratedMsgID, turn := 0, 0;
    while !pDone || !tDone
      invariant |pMessages| <= |pFound| && pMessages == pFound[..|pMessages|] && (pDone ==> |pMessages| == |pFound|)
      invariant |tMessages| <= |tFound| && tMessages == tFound[..|tMessages|] && (tDone ==> |tMessages| == |tFound|)
      invariant LoadRace.Moves(ps, ts, lastMem, LoadRace.START, taken)
                == LoadRace.Race(|pMessages|, |tMessages|, lastIteratedMsgID,
                                 if pDone then Some(swappedToPersistent) else None,
                                 if tDone then Some(swappedToTransient) else None)
      invariant (!pDone ==> swappedToPersistent) && (!tDone ==> swappedToTransient)
      invariant |taken| == turn && (taken <= schedule || schedule <= taken)
      decreases if turn < |schedule| then |schedule| - turn else 0,
                |pFound| - |pMessages| + |tFound| - |tMessages|, !pDone, !tDone
    {
      var persistent := if turn < |schedule| then schedule[turn] else !pDone;
      LoadRace.MovesSnoc(ps, ts, lastMem, taken, persistent);
      assert |pMessages| < |pFound| ==> ps[|pMessages|] == pFound[|pMessages|].id;
      assert |tMessages| < |tFound| ==> ts[|tMessages|] == tFound[|tMessages|].id;
      if persistent && !pDone {
        if |pMessages| < |pFound| {
          lastIteratedMsgID := pFound[|pMessages|].id;
          pMessages := pMessages + [pFound[|pMessages|]];
        } else {
          if |pMessages| == 0 || lastMem == lastIteratedMsgID { swappedToPersistent := false; }
          pDone := true;
        }
      } else if !persistent && !tDone {
        if |tMessages| < |tFound| {
          lastIteratedMsgID := tFound[|tMessages|].id;
          tMessages := tMessages + [tFound[|tMessages|]];
        } else {
          if |tMessages| == 0 || lastMem == lastIteratedMsgID { swappedToTransient := false; }
          tDone := true;
        }
      }
      taken, turn := taken + [persistent], turn + 1;
    }
    swapped := swappedToPersistent || swappedToTransient;
    assert LoadRace.Ends(ps, ts, lastMem, taken, swapped);
    SameEnd(ps, ts, lastMem, taken, schedule, swapped);
  }

  lemma SameEnd(ps: seq<nat>, ts: seq<nat>, lastMem: nat, a: seq<bool>, b: seq<bool>, swapped: bool)
    requires LoadRace.Ends(ps, ts, lastMem, a, swapped) && (a <= b || b <= a)
    ensures forall s :: LoadRace.Ends(ps, ts, lastMem, b, s) ==> s == swapped
  {
    if a <= b {
      assert b == a + b[|a|..];
      LoadRace.LongerSchedule(ps, ts, lastMem, a, b[|a|..]);
    } else if LoadRace.Over(LoadRace.Moves(ps, ts, lastMem, LoadRace.START, b)) {
      assert a == b + a[|b|..];
      LoadRace.LongerSchedule(ps, ts, lastMem, b, a[|b|..]);
    }
  }

  lemma MergeStep(A: seq<Message>, B: seq<Message>, i: nat, j: nat)
    requires i <= |A| && j <= |B| && (i < |A| || j < |B|)
    ensures var m := MergeById(A[i..], B[j..]);
            && m != []
            && if NextFromA(A, B, i, j)
               then m[0] == A[i] && m[1..] == MergeById(A[i + 1..], B[j..])
               else m[0] == B[j] && m[1..] == MergeById(A[i..], B[j + 1..])
  {
    if i < |A| { assert A[i..] == [A[i]] + A[i + 1..]; }
    if j < |B| { assert B[j..] == [B[j]] + B[j + 1..]; }
  }

  lemma {:induction false} MergeLength(a: seq<Message>, b: seq<Message>)
    ensures |MergeById(a, b)| == |a| + |b|
    decreases |a| + |b|
  {
    if a != [] && b != [] {
      if a[0].id < b[0].id { MergeLength(a[1..], b); } else { MergeLength(a, b[1..]); }
    }
  }

  lemma {:induction false} DropIdSnoc(s: seq<Message>, x: Message, id: nat)
    ensures BackedQueue.DropId(s + [x], id) == BackedQueue.DropId(s, id) + if x.id == id then [] else [x]
  {
    if s != [] {
      DropIdSnoc(s[1..], x, id);
      assert (s + [x])[1..] == s[1..] + [x];
    }
  }

  lemma TakeTwice(q: BackedQueue.Queue, a: seq<Message>, b: seq<Message>)
    ensures BackedQueue.Take(BackedQueue.Take(q, a), b) == BackedQueue.Take(q, a + b)
  {
    if a == [] { assert a + b == b; }
    if b == [] { assert a + b == a; }
    assert q.ram + a + b == q.ram + (a + b);
  }

  lemma TakeNext(q: BackedQueue.Queue, found: seq<Message>, i: nat, lastMem: nat)
    requires i < |found|
    ensures var q' := BackedQueue.Take(q, BackedQueue.DropId(found[..i], lastMem));
            var m := found[i];
            BackedQueue.Take(q, BackedQueue.DropId(found[..i + 1], lastMem)) ==
              if m.id == lastMem then q' else q'.(ram := q'.ram + [m], lastMem := m.id, lastStored := m.id)
  {
    assert found[..i + 1] == found[..i] + [found[i]];
    DropIdSnoc(found[..i], found[i], lastMem);
    TakeTwice(q, BackedQueue.DropId(found[..i], lastMem), if found[i].id == lastMem then [] else [found[i]]);
  }

  /** A purge leaves a queue that works and is empty exactly when the deque's two positions agree
      and no transient message is waiting in its store. */
  lemma PurgeWorksIff(q: BackedQueue.Queue, r: Ring.Ring<Message>)
    requires BackedQueue.Inv(q) && Ring.Valid(r) && Ring.Contents(r) == q.ram
    ensures Ring.Valid(Ring.Purge(r)) && BackedQueue.View(BackedQueue.Purge(q)) == [] <==>
              r.headPos == r.tailPos && forall k :: k in q.t ==> k <= q.lastMem
  {
    Ring.PurgeValidIff(r);
    BackedQueue.PurgeEmptiesIff(q);
  }

  /** One push and a purge: the queue looks empty and its deque has stopped working. */
  lemma PurgeBreaksDeque(durable: bool, maxInRam: nat, shardSize: nat, m: Message)
    requires maxInRam < WORD64 && shardSize >= 2
    ensures var q := BackedQueue.Push(BackedQueue.Started(durable, maxInRam), m);
            var r := Ring.Push(Ring.New(shardSize), m);
            && Ring.Valid(r) && Ring.Contents(r) == q.ram
            && BackedQueue.View(BackedQueue.Purge(q)) == [] && !Ring.Valid(Ring.Purge(r))
  {
    var q := BackedQueue.Push(BackedQueue.Started(durable, maxInRam), m);
    var r0: Ring.Ring<Message> := Ring.New(shardSize);
    assert Ring.Span(1, shardSize) == shardSize;
    assert Ring.Contents(r0) == [];
    Ring.PushRefines(r0, m);
    Ring.PurgeValidIff(Ring.Push(r0, m));
    BackedQueue.NothingAbove(BackedQueue.Purge(q));
  }

  class Queue {
    const durable: bool
    const maxMessagesInRAM: nat
    var active: bool
    var ram: Ring.Ring<Message>
    var msgP: Store
    var msgT: Store
    var queueLength: int
    var lastStoredMsgID: nat
    var lastMemMsgID: nat
    var swappedToDisk: bool
    var total: int
    var ready: int
    var unacked: int

    ghost predicate Valid()
      reads this
    {
      Ring.Valid(ram)
    }

    ghost function Value(): BackedQueue.Queue
      requires Valid()
      reads this
    {
      BackedQueue.Queue(active, durable, maxMessagesInRAM, Ring.Contents(ram), msgP, msgT, lastStoredMsgID,
                        lastMemMsgID, swappedToDisk, queueLength, BackedQueue.Metrics(total, ready, unacked))
    }

    constructor (durable: bool, maxMessagesInRAM: nat, shardSize: nat)
      requires maxMessagesInRAM < WORD64 && 1 <= shardSize
      ensures Valid() && Value() == BackedQueue.New(durable, maxMessagesInRAM)
    {
      this.durable, this.maxMessagesInRAM := durable, maxMessagesInRAM;
      active, swappedToDisk := false, false;
      ram, msgP, msgT := Ring.New(shardSize), map[], map[];
      queueLength, lastStoredMsgID, lastMemMsgID := 0, 0, 0;
      total, ready, unacked := 0, 0, 0;
      Ring.NewRefines<Message>(shardSize);
    }

    method Push(message: Message)
      requires Valid()
      modifies this
      ensures Valid() && Value() == BackedQueue.Push(old(Value()), message)
    {
      if !active { return; }
      queueLength := queueLength + 1;
      total := total + 1;
      ready := ready + 1;

      var persisted := false;
      if durable && message.persistent {
        msgP := msgP[message.id := message];
        persisted := true;
      } else if ram.length > maxMessagesInRAM || swappedToDisk {
        msgT := msgT[message.id := message];
        persisted := true;
      }

      if persisted && !swappedToDisk && ram.length > maxMessagesInRAM {
        swappedToDisk := true;
        lastStoredMsgID := message.id;
      }

      if ram.length <= maxMessagesInRAM && !swappedToDisk {
        Ring.PushRefines(ram, message);
        ram := Ring.Push(ram, message);
        lastMemMsgID := message.id;
      }
    }

    method PopQos(qosList: seq<Qos.AmqpQos>, ghost ws: seq<Qos.Window>) returns (message: Option<Message>)
      requires Valid()
      requires Qos.Holds(qosList, ws)
      modifies this, qosList
      ensures Valid()
      ensures var (q, ws', r) := BackedQueue.PopQos(old(Value()), ws);
              Value() == q && Qos.Holds(qosList, ws') && message == r
    {
      if !active { return None; }
      Ring.HeadRefines(ram);
      message := Ring.Head(ram);
      if message == None { return; }
      var allowed := Qos.ChargeAll(qosList, message.value.bodySize, ws);
      if allowed {
        Ring.PopRefines(ram);
        ram := Ring.Pop(ram).0;
        queueLength := queueLength - 1;
      } else {
        message := None;
      }
    }

    method AckMsg(message: Message)
      requires Valid()
      modifies this
      ensures Valid() && Value() == BackedQueue.AckMsg(old(Value()), message)
    {
      if !active { return; }
      if durable && message.persistent {
        msgP := msgP - {message.id};
      }
      total := total - 1;
      unacked := unacked - 1;
    }

    method Requeue(message: Message)
      requires Valid()
      modifies this
      ensures Valid() && Value() == BackedQueue.Requeue(old(Value()), message)
    {
      if !active { return; }
      Ring.PushHeadRefines(ram, message);
      ram := Ring.PushHead(ram, message);
      if durable && message.persistent {
        msgP := msgP[message.id := message];
      }
      ready := ready + 1;
      unacked := unacked - 1;
      queueLength := queueLength + 1;
    }

    /** A load whose goroutines interleave as schedule says: it moves what Load moves, and leaves the flag that this
        schedule leaves. LoadRace.EarlyClearIff says when that is not the flag of Load. */
    method MayBeLoadFromStorage(schedule: seq<bool>)
      requires Valid()
      requires maxMessagesInRAM < WORD64
      modifies this
      ensures Valid() && Value() == BackedQueue.Load(old(Value())).(swapped := swappedToDisk)
      ensures BackedQueue.LoadSkips(old(Value())) ==> Value() == old(Value())
      ensures !BackedQueue.LoadSkips(old(Value())) ==> LoadRace.MayLeave(old(Value()), swappedToDisk)
      ensures !BackedQueue.LoadSkips(old(Value())) ==>
                forall swapped :: LoadRace.Leaves(old(Value()), schedule, swapped) ==> swappedToDisk == swapped
    {
      var currentLength := ram.length;
      var needle := (maxMessagesInRAM - currentLength) % WORD64;
      if currentLength >= maxMessagesInRAM / 2 || needle <= 0 || !swappedToDisk {
        return;
      }
      ghost var q := Value();
      assert needle == BackedQueue.Needle(q) && !BackedQueue.LoadSkips(q);
      var lastMem := lastMemMsgID;
      var pFound := BackedQueue.Scan(msgP, lastStoredMsgID, needle);
      var tFound := BackedQueue.Scan(msgT, lastStoredMsgID, needle);
      var pMessages, tMessages, swapped := Walk(pFound, tFound, lastMem, schedule);
      assert LoadRace.Ids(pFound) == LoadRace.FoundIds(q, q.p) && LoadRace.Ids(tFound) == LoadRace.FoundIds(q, q.t);
      ghost var taken :| LoadRace.Ends(LoadRace.FoundIds(q, q.p), LoadRace.FoundIds(q, q.t), q.lastMem, taken, swapped);
      LoadFrom(pMessages, tMessages, needle, swapped);
    }

    /** What follows when both goroutines are done. */
    method LoadFrom(pMessages: seq<Message>, tMessages: seq<Message>, needle: nat, swapped: bool)
      requires Valid()
      modifies this
      ensures Valid()
      ensures Value() == BackedQueue.LoadWith(old(Value()), pMessages, tMessages, needle).(swapped := swapped)
    {
      var found := FirstSorted(pMessages, tMessages, needle);
      PushAllBut(found, lastMemMsgID);
      swappedToDisk := swapped;
    }

    /** The loop that moves found messages into RAM, skipping the one that is already there. */
    method PushAllBut(found: seq<Message>, lastMem: nat)
      requires Valid()
      modifies this`ram, this`lastMemMsgID, this`lastStoredMsgID
      ensures Valid() && Value() == BackedQueue.Take(old(Value()), BackedQueue.DropId(found, lastMem))
    {
      ghost var q := Value();
      for i := 0 to |found|
        invariant Valid() && Value() == BackedQueue.Take(q, BackedQueue.DropId(found[..i], lastMem))
      {
        TakeNext(q, found, i, lastMem);
        if found[i].id != lastMem {
          Ring.PushRefines(ram, found[i]);
          ram := Ring.Push(ram, found[i]);
          lastMemMsgID := found[i].id;
          lastStoredMsgID := found[i].id;
        }
      }
      assert found[..|found|] == found;
    }

    /** Called once after a restart, before the queue is started. */
    method LoadFromMsgStorage()
      requires Valid()
      modifies this
      ensures Valid() && Value() == BackedQueue.Recover(old(Value()))
    {
      RecoverFrom(BackedQueue.Scan(msgP, 0, maxMessagesInRAM), |msgP|);
    }

    method RecoverFrom(found: seq<Message>, stored: nat)
      requires Valid()
      modifies this
      ensures Valid() && Value() == BackedQueue.RecoverWith(old(Value()), found, stored)
    {
      PushFound(found);
      Count(found, stored);
    }

    method PushFound(found: seq<Message>)
      requires Valid()
      modifies this`ram, this`lastMemMsgID, this`lastStoredMsgID
      ensures Valid() && Value() == BackedQueue.Take(old(Value()), found)
    {
      ghost var q := Value();
      for i := 0 to |found|
        invariant Valid() && Value() == BackedQueue.Take(q, found[..i])
      {
        assert found[..i + 1] == found[..i] + [found[i]];
        TakeTwice(q, found[..i], [found[i]]);
        Ring.PushRefines(ram, found[i]);
        ram := Ring.Push(ram, found[i]);
        lastStoredMsgID := found[i].id;
        lastMemMsgID := found[i].id;
      }
      assert found[..|found|] == found;
    }

    method Count(found: seq<Message>, stored: nat)
      requires Valid()
      modifies this`swappedToDisk, this`queueLength, this`total, this`ready
      ensures Valid() && Value() == var length := if |found| >= maxMessagesInRAM then stored else |found|;
                         old(Value()).(
                           swapped := old(swappedToDisk) || ram.length >= maxMessagesInRAM,
                           length := length,
                           metrics := BackedQueue.Metrics(old(total) + length, old(ready) + length, unacked))
    {
      if ram.length >= maxMessagesInRAM {
        swappedToDisk := true;
      }
      if |found| >= maxMessagesInRAM {
        queueLength := stored;
      } else {
        queueLength := |found|;
      }
      total := total + queueLength;
      ready := ready + queueLength;
    }

    /** The deque keeps its positions, so the queue works on exactly when they agree. */
    method Purge() returns (length: int)
      requires Valid()
      modifies this
      ensures length == old(queueLength) && ram == Ring.Purge(old(ram))
      ensures Valid() <==> old(ram).headPos == old(ram).tailPos
      ensures Valid() ==> Value() == BackedQueue.Purge(old(Value()))
      ensures msgP == (if durable then map[] else old(msgP)) && queueLength == 0
      ensures total == old(total) - length && ready == old(ready) - length
      ensures unchanged(`active, `msgT, `lastStoredMsgID, `lastMemMsgID, `swappedToDisk, `unacked)
    {
      Ring.PurgeValidIff(ram);
      length := queueLength;
      ram := Ring.Purge(ram);
      if durable {
        msgP := map[];
      }
      total := total - length;
      ready := ready - length;
      queueLength := 0;
    }
  }
}
