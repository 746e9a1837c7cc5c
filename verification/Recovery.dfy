/**
 Restart recovery across queue.go and msgstorage.go: what a durable queue writes
 while it runs, what the store holds after the last flush, and what the restarted
 queue contains.
 */
module Recovery {
  import opened Options
  import opened Messages
  import opened BackedQueue
  import opened Words
  import MsgStorages

  /** The writes one queue operation sends to the persistent store. */
  function Writes(q: Queue, op: Op): seq<MsgStorages.Op<nat, Message>> {
    match op
    case OpPush(m) => if q.active && ToDisk(q, m) then [MsgStorages.Add(m.id, m)] else []
    case OpRequeue(m) => if q.active && ToDisk(q, m) then [MsgStorages.Update(m.id, m)] else []
    case OpAck(m) => if q.active && ToDisk(q, m) then [MsgStorages.Del(m.id, m)] else []
    case OpPop(_) => []
    case OpLoad => []
  }

  function AllWrites(q: Queue, ops: seq<Op>): seq<MsgStorages.Op<nat, Message>>
    requires q.maxInRam < WORD64
    decreases |ops|
  {
    if ops == [] then [] else Writes(q, ops[0]) + AllWrites(Step(q, ops[0]).0, ops[1..])
  }

  /** What is delivered and not settled at the end of a run. */
  function OutAfter(out: set<Message>, ops: seq<Op>, rs: seq<Option<Message>>): set<Message>
    requires |ops| == |rs|
    decreases |ops|
  {
    if ops == [] then out else
    OutAfter(match ops[0]
             case OpPop(_) => if rs[0].Some? then out + {rs[0].value} else out
             case OpRequeue(m) => out - {m}
             case OpAck(m) => out - {m}
             case _ => out,
             ops[1..], rs[1..])
  }

  /** The largest ID pushed by the end of a run. */
  function TopAfter(top: nat, ops: seq<Op>): nat
    decreases |ops|
  {
    if ops == [] then top else TopAfter(if ops[0].OpPush? then ops[0].m.id else top, ops[1..])
  }

  /** Every message sits in one place, and IDs are not reused. */
  ghost predicate Unique(view: seq<Message>, out: set<Message>) {
    && (forall i, j :: 0 <= i < j < |view| ==> view[i].id != view[j].id)
    && (forall i, m :: 0 <= i < |view| && m in out ==> view[i].id != m.id)
    && (forall m, m' :: m in out && m' in out && m.id == m'.id ==> m == m')
  }

  /** The persistent store is exactly the persistent messages that are queued or unsettled. */
  ghost predicate Backed(q: Queue, out: set<Message>) {
    forall m: Message :: m.id in q.p && q.p[m.id] == m <==> ToDisk(q, m) && (m in View(q) || m in out)
  }

  ghost predicate CrashInv(q: Queue, top: nat, out: set<Message>) {
    RunInv(q, top, out) && Unique(View(q), out) && Backed(q, out)
  }

  lemma ViewBounded(q: Queue, top: nat, out: set<Message>)
    requires RunInv(q, top, out)
    ensures forall i :: 0 <= i < |View(q)| ==> View(q)[i].id <= top
    ensures forall m :: m in out ==> m.id <= top
  {
    forall i | 0 <= i < |View(q)| ensures View(q)[i].id <= top {
      if i >= |q.ram| { PendingAbove(q, i - |q.ram|); } else { assert Seen(q, q.ram[i]); }
    }
  }

  lemma PushKeepsCrashInv(q: Queue, top: nat, out: set<Message>, m: Message)
    requires CrashInv(q, top, out) && top < m.id
    ensures CrashInv(Push(q, m), m.id, out)
  {
    PushStep(q, top, out, m);
    ViewBounded(q, top, out);
    var q' := Push(q, m);
    assert View(q') == View(q) + [m];
    assert q'.p == if ToDisk(q, m) then q.p[m.id := m] else q.p;
    forall x: Message ensures x.id in q'.p && q'.p[x.id] == x <==> ToDisk(q', x) && (x in View(q') || x in out) {
      assert x in View(q') <==> x in View(q) || x == m;
      assert x.id in q.p && q.p[x.id] == x <==> ToDisk(q, x) && (x in View(q) || x in out);
      assert m.id !in q.p;
    }
  }

  lemma UniquePrepend(view: seq<Message>, out: set<Message>, m: Message)
    requires Unique(view, out) && m in out
    ensures Unique([m] + view, out - {m})
    ensures forall x :: x in [m] + view || x in out - {m} <==> x in view || x in out
  {
  }

  lemma UniquePop(view: seq<Message>, out: set<Message>)
    requires Unique(view, out) && view != []
    ensures Unique(view[1..], out + {view[0]})
    ensures forall x :: x in view[1..] || x in out + {view[0]} <==> x in view || x in out
  {
    assert view == [view[0]] + view[1..];
  }

  /** The same messages queued or unsettled, and the same store. */
  lemma BackedMoves(q: Queue, out: set<Message>, q': Queue, out': set<Message>)
    requires Backed(q, out) && q'.p == q.p && q'.durable == q.durable
    requires forall x :: x in View(q') || x in out' <==> x in View(q) || x in out
    ensures Backed(q', out')
  {
    forall x: Message ensures x.id in q'.p && q'.p[x.id] == x <==> ToDisk(q', x) && (x in View(q') || x in out') {
      assert x.id in q.p && q.p[x.id] == x <==> ToDisk(q, x) && (x in View(q) || x in out);
    }
  }

  lemma PopKeepsCrashInv(q: Queue, top: nat, out: set<Message>, ws: seq<Qos.Window>)
    requires CrashInv(q, top, out)
    ensures var (q', _, r) := PopQos(q, ws);
            CrashInv(q', top, if r.Some? then out + {r.value} else out)
  {
    PopStep(q, top, out, ws);
    var (q', _, r) := PopQos(q, ws);
    if r.Some? {
      assert View(q)[0] == r.value && View(q)[1..] == View(q');
      UniquePop(View(q), out);
      BackedMoves(q, out, q', out + {r.value});
    }
  }

  /** A purge also deletes the stored copies of messages that are delivered and not settled. It leaves the queue fit
      for a restart exactly when there are none, and no transient message waits beyond RAM. */
  lemma PurgeKeepsCrashInvIff(q: Queue, top: nat, out: set<Message>)
    requires CrashInv(q, top, out)
    ensures CrashInv(Purge(q), top, out) <==>
              (forall m :: m in out ==> !ToDisk(q, m)) && (forall k :: k in q.t ==> k <= q.lastMem)
  {
    var q' := Purge(q);
    PurgeEmptiesIff(q);
    assert Stored(q') == q.t;
    forall m | m in out ensures Seen(q', m) { assert Seen(q, m); }
    if (forall m :: m in out ==> !ToDisk(q, m)) && (forall k :: k in q.t ==> k <= q.lastMem) {
      assert View(q') == [] && Inv(q');
      assert Backed(q', out);
    }
    if CrashInv(q', top, out) {
      forall m | m in out ensures !ToDisk(q, m) {
        if ToDisk(q, m) { HeldIsStored(q', out, m); }
      }
    }
  }

  lemma HeldIsStored(q: Queue, out: set<Message>, m: Message)
    requires Backed(q, out) && m in out && ToDisk(q, m)
    ensures m.id in q.p
  {
  }

  lemma {:induction false} PushThenPop(q: Queue, m: Message)
    requires q.active && !q.swapped && q.ram == [] && q.maxInRam < WORD64
    ensures var (q', rs) := Run(q, [OpPush(m), OpPop([])]);
            && rs == [None, Some(m)] && q'.durable == q.durable
            && q'.p == if ToDisk(q, m) then q.p[m.id := m] else q.p
  {
    var push, pop := OpPush(m), OpPop([]);
    var q1 := Push(q, m);
    assert q1.ram == [m] && q1.maxInRam == q.maxInRam;
    assert [push, pop][1..] == [pop] && [pop][1..] == [];
    var q2 := PopQos(q1, []).0;
    assert Run(q2, []) == (q2, []);
    assert Run(q1, [pop]).0 == q2 && Run(q1, [pop]).1 == [Some(m)] + [];
    assert Run(q, [push, pop]).0 == q2 && Run(q, [push, pop]).1 == [None] + [Some(m)];
  }

  /** A message is delivered and not settled when the queue is purged: a restart does not bring it back. */
  lemma PurgeLosesUnsettled(maxInRam: nat, m: Message)
    requires maxInRam < WORD64 && m.persistent && m.id > 0
    ensures var q0, ops := Started(true, maxInRam), [OpPush(m), OpPop([])];
            && Run(q0, ops).1 == [None, Some(m)] && Legal(0, {}, ops, Run(q0, ops).1)
            && OutAfter({}, ops, Run(q0, ops).1) == {m}
            && View(Recover(Restarted(Run(q0, ops).0.p, maxInRam))) == [m]
            && View(Recover(Restarted(Purge(Run(q0, ops).0).p, maxInRam))) == []
  {
    var q0, ops := Started(true, maxInRam), [OpPush(m), OpPop([])];
    PushThenPop(q0, m);
    HeldAfterPop(m);
    var p := Run(q0, ops).0.p;
    assert p == map[m.id := m] && Purge(Run(q0, ops).0).p == map[];
    RecoverRebuilds(p, maxInRam);
    RecoverRebuilds(map[], maxInRam);
    InOrderLength(map[]);
    InOrderLength(p);
    InOrderMember(p, m);
  }

  lemma {:induction false} HeldAfterPop(m: Message)
    requires m.id > 0
    ensures Legal(0, {}, [OpPush(m), OpPop([])], [None, Some(m)])
    ensures OutAfter({}, [OpPush(m), OpPop([])], [None, Some(m)]) == {m}
  {
    var push, pop := OpPush(m), OpPop([]);
    var rs: seq<Option<Message>> := [None, Some(m)];
    assert [push, pop][1..] == [pop] && rs[1..] == [Some(m)] && [pop][1..] == [] && rs[1..][1..] == [];
    assert OutAfter({m}, [], []) == {m} && OutAfter({}, [pop], [Some(m)]) == {m};
    assert Legal(m.id, {}, [pop], [Some(m)]);
  }

  lemma RequeueKeepsCrashInv(q: Queue, top: nat, out: set<Message>, m: Message)
    requires CrashInv(q, top, out) && m in out
    ensures CrashInv(Requeue(q, m), top, out - {m})
  {
    RequeueStep(q, top, out, m);
    UniquePrepend(View(q), out, m);
    assert Requeue(q, m).p == q.p;
    BackedMoves(q, out, Requeue(q, m), out - {m});
  }

  lemma AckKeepsCrashInv(q: Queue, top: nat, out: set<Message>, m: Message)
    requires CrashInv(q, top, out) && m in out
    ensures CrashInv(AckMsg(q, m), top, out - {m})
  {
    AckStep(q, top, out, m);
    var q' := AckMsg(q, m);
    forall x: Message
      ensures x.id in q'.p && q'.p[x.id] == x <==> ToDisk(q', x) && (x in View(q') || x in out - {m})
    {
      assert x.id in q.p && q.p[x.id] == x <==> ToDisk(q, x) && (x in View(q) || x in out);
      if x.id == m.id && x in View(q) { assert false; }
    }
  }

  lemma LoadKeepsCrashInv(q: Queue, top: nat, out: set<Message>)
    requires CrashInv(q, top, out)
    ensures CrashInv(Load(q), top, out)
  {
    LoadStep(q, top, out);
    BackedMoves(q, out, Load(q), out);
  }

  /** At every point of a legal run the persistent store is exactly the persistent messages that are queued
      or unsettled. */
  lemma {:induction false} RunKeepsCrashInv(q: Queue, top: nat, out: set<Message>, ops: seq<Op>)
    requires CrashInv(q, top, out)
    requires |Run(q, ops).1| == |ops| && Legal(top, out, ops, Run(q, ops).1)
    ensures CrashInv(Run(q, ops).0, TopAfter(top, ops), OutAfter(out, ops, Run(q, ops).1))
    decreases |ops|
  {
    if ops != [] {
      var (q1, r) := Step(q, ops[0]);
      RunLength(q1, ops[1..]);
      assert Run(q, ops).1[1..] == Run(q1, ops[1..]).1;
      match ops[0]
      case OpPush(m) =>
        PushKeepsCrashInv(q, top, out, m);
        RunKeepsCrashInv(q1, m.id, out, ops[1..]);
      case OpPop(ws) =>
        PopKeepsCrashInv(q, top, out, ws);
        RunKeepsCrashInv(q1, top, if r.Some? then out + {r.value} else out, ops[1..]);
      case OpRequeue(m) =>
        RequeueKeepsCrashInv(q, top, out, m);
        RunKeepsCrashInv(q1, top, out - {m}, ops[1..]);
      case OpAck(m) =>
        AckKeepsCrashInv(q, top, out, m);
        RunKeepsCrashInv(q1, top, out - {m}, ops[1..]);
      case OpLoad =>
        LoadKeepsCrashInv(q, top, out);
        RunKeepsCrashInv(q1, top, out, ops[1..]);
    }
  }

  // ---------------------------------------------------------------- the store behind the run

  /** Keys that are stored now, and keys that were. */
  ghost predicate Lives(q: Queue, top: nat, l: MsgStorages.Life<nat>) {
    l.live == q.p.Keys && l.live !! l.gone && forall k :: k in l.gone ==> k <= top
  }

  lemma WriteLawful(q: Queue, top: nat, op: Op, l: MsgStorages.Life<nat>,
                    rest: seq<MsgStorages.Op<nat, Message>>) returns (l': MsgStorages.Life<nat>)
    requires q.maxInRam < WORD64 && Lives(q, top, l) && Bounded(q, top)
    requires op.OpPush? ==> top < op.m.id
    requires (op.OpRequeue? || op.OpAck?) && ToDisk(q, op.m) ==> op.m.id in q.p
    ensures Lives(Step(q, op).0, if op.OpPush? then op.m.id else top, l')
    ensures MsgStorages.Lawful(l', rest) ==> MsgStorages.Lawful(l, Writes(q, op) + rest)
    ensures MsgStorages.RunDirect(q.p, Writes(q, op) + rest) == MsgStorages.RunDirect(Step(q, op).0.p, rest)
  {
    var w := Writes(q, op);
    l' := l;
    if w == [] {
      assert w + rest == rest;
    } else {
      assert (w + rest)[1..] == rest && (w + rest)[0] == w[0];
      assert forall k :: k in q.p ==> k in Stored(q);
      match op
      case OpPush(m) => l' := l.(live := l.live + {m.id});
      case OpRequeue(_) =>
      case OpAck(m) => l' := MsgStorages.Life(l.live - {m.id}, l.gone + {m.id});
    }
  }

  lemma OutstandingStored(q: Queue, top: nat, out: set<Message>, m: Message)
    requires CrashInv(q, top, out) && m in out && ToDisk(q, m)
    ensures m.id in q.p
  {
    assert m.id in q.p && q.p[m.id] == m <==> ToDisk(q, m) && (m in View(q) || m in out);
  }

  /** The writes of a legal run are lawful, and writing them directly gives the queue's own store. */
  lemma {:induction false} RunWritesLawful(q: Queue, top: nat, out: set<Message>, ops: seq<Op>,
                                           l: MsgStorages.Life<nat>)
    requires CrashInv(q, top, out) && Lives(q, top, l)
    requires |Run(q, ops).1| == |ops| && Legal(top, out, ops, Run(q, ops).1)
    ensures MsgStorages.Lawful(l, AllWrites(q, ops))
    ensures MsgStorages.RunDirect(q.p, AllWrites(q, ops)) == Run(q, ops).0.p
    decreases |ops|
  {
    if ops != [] {
      var (q1, r) := Step(q, ops[0]);
      RunLength(q1, ops[1..]);
      assert Run(q, ops).1[1..] == Run(q1, ops[1..]).1;
      if (ops[0].OpRequeue? || ops[0].OpAck?) && ToDisk(q, ops[0].m) { OutstandingStored(q, top, out, ops[0].m); }
      var l' := WriteLawful(q, top, ops[0], l, AllWrites(q1, ops[1..]));
      match ops[0]
      case OpPush(m) =>
        PushKeepsCrashInv(q, top, out, m);
        RunWritesLawful(q1, m.id, out, ops[1..], l');
      case OpPop(ws) =>
        PopKeepsCrashInv(q, top, out, ws);
        RunWritesLawful(q1, top, if r.Some? then out + {r.value} else out, ops[1..], l');
      case OpRequeue(m) =>
        RequeueKeepsCrashInv(q, top, out, m);
        RunWritesLawful(q1, top, out - {m}, ops[1..], l');
      case OpAck(m) =>
        AckKeepsCrashInv(q, top, out, m);
        RunWritesLawful(q1, top, out - {m}, ops[1..], l');
      case OpLoad =>
        LoadKeepsCrashInv(q, top, out);
        RunWritesLawful(q1, top, out, ops[1..], l');
    }
  }

  /** A history of writes with its flushes left out. */
  function Unflushed<K, V>(ws: seq<MsgStorages.Op<K, V>>): seq<MsgStorages.Op<K, V>> {
    if ws == [] then []
    else (if ws[0].Persist? then [] else [ws[0]]) + Unflushed(ws[1..])
  }

  lemma {:induction false} FlushesChangeNothing<K, V>(l: MsgStorages.Life<K>, db: map<K, V>,
                                                      ws: seq<MsgStorages.Op<K, V>>)
    requires MsgStorages.Lawful(l, Unflushed(ws))
    ensures MsgStorages.Lawful(l, ws)
    ensures MsgStorages.RunDirect(db, ws) == MsgStorages.RunDirect(db, Unflushed(ws))
    decreases |ws|
  {
    if ws != [] {
      var rest := Unflushed(ws[1..]);
      if ws[0].Persist? {
        assert Unflushed(ws) == rest;
        FlushesChangeNothing(l, db, ws[1..]);
      } else {
        assert Unflushed(ws)[1..] == rest;
        match ws[0]
        case Add(k, v) => FlushesChangeNothing(l.(live := l.live + {k}), db[k := v], ws[1..]);
        case Update(k, v) => FlushesChangeNothing(l, db[k := v], ws[1..]);
        case Del(k, _) => FlushesChangeNothing(MsgStorages.Life(l.live - {k}, l.gone + {k}), db - {k}, ws[1..]);
      }
    }
  }

  /** Restart recovery, end to end. A durable queue runs through any legal history; its writes reach the
      database in any number of flushes, the last one after the last write. The restarted queue then holds, in ID
      order, exactly the persistent messages that were queued or delivered but not settled, and meets the
      spill invariant whether or not they fit in RAM. */
  lemma RestartRecovers(q: Queue, top: nat, out: set<Message>, ops: seq<Op>,
                        writes: seq<MsgStorages.Op<nat, Message>>, maxInRam: nat)
    requires CrashInv(q, top, out) && q.durable && maxInRam < WORD64
    requires |Run(q, ops).1| == |ops| && Legal(top, out, ops, Run(q, ops).1)
    requires Unflushed(writes) == AllWrites(q, ops)
    ensures var db := MsgStorages.Flushed(MsgStorages.Run(MsgStorages.State(q.p, MsgStorages.Empty()), writes));
            var before, after := Run(q, ops), Recover(Restarted(db, maxInRam));
            && Inv(after) && after.length == |View(after)|
            && (forall i, j :: 0 <= i < j < |View(after)| ==> View(after)[i].id < View(after)[j].id)
            && (forall m: Message :: m in View(after) <==>
                  m.persistent && (m in View(before.0) || m in OutAfter(out, ops, before.1)))
  {
    var before := Run(q, ops);
    FlushedStore(q, top, out, ops, writes);
    RunKeepsConfig(q, ops);
    RunKeepsCrashInv(q, top, out, ops);
    RecoveredView(before.0, TopAfter(top, ops), OutAfter(out, ops, before.1), maxInRam);
  }

  lemma FlushedStore(q: Queue, top: nat, out: set<Message>, ops: seq<Op>, writes: seq<MsgStorages.Op<nat, Message>>)
    requires CrashInv(q, top, out)
    requires |Run(q, ops).1| == |ops| && Legal(top, out, ops, Run(q, ops).1)
    requires Unflushed(writes) == AllWrites(q, ops)
    ensures MsgStorages.Flushed(MsgStorages.Run(MsgStorages.State(q.p, MsgStorages.Empty()), writes)) == Run(q, ops).0.p
  {
    RunWritesLawful(q, top, out, ops, MsgStorages.Life(q.p.Keys, {}));
    FlushedFromClean(q.p, writes);
  }

  lemma FlushedFromClean<K, V>(db: map<K, V>, writes: seq<MsgStorages.Op<K, V>>)
    requires MsgStorages.Lawful(MsgStorages.Life(db.Keys, {}), Unflushed(writes))
    ensures MsgStorages.Flushed(MsgStorages.Run(MsgStorages.State(db, MsgStorages.Empty()), writes))
            == MsgStorages.RunDirect(db, Unflushed(writes))
  {
    var l, s := MsgStorages.Life(db.Keys, {}), MsgStorages.State(db, MsgStorages.Empty());
    FlushesChangeNothing(l, db, writes);
    assert MsgStorages.Flushed(s) == db;
    MsgStorages.CoalescingEqualsDirect(s, l, writes);
  }

  lemma RecoveredView(q: Queue, top: nat, out: set<Message>, maxInRam: nat)
    requires CrashInv(q, top, out) && q.durable && maxInRam < WORD64
    ensures var after := Recover(Restarted(q.p, maxInRam));
            && Inv(after)
            && (forall i, j :: 0 <= i < j < |View(after)| ==> View(after)[i].id < View(after)[j].id)
            && (forall m: Message :: m in View(after) <==> m.persistent && (m in View(q) || m in out))
  {
    RecoverRebuilds(q.p, maxInRam);
    InOrderAscends(q.p);
    forall m: Message ensures m in InOrder(q.p) <==> m.persistent && (m in View(q) || m in out) {
      InOrderMember(q.p, m);
    }
  }

  lemma {:induction false} RunKeepsConfig(q: Queue, ops: seq<Op>)
    requires q.maxInRam < WORD64
    ensures Run(q, ops).0.durable == q.durable
    decreases |ops|
  {
    if ops != [] { RunKeepsConfig(Step(q, ops[0]).0, ops[1..]); }
  }

  // ---------------------------------------------------------------- one restart after another

  /** A new queue may begin a history. */
  lemma StartedCrashInv(durable: bool, maxInRam: nat)
    requires maxInRam < WORD64
    ensures CrashInv(Started(durable, maxInRam), 0, {})
  {
    StartedRuns(durable, maxInRam);
  }

  /** So may a queue that was recovered and started. */
  lemma RecoveredCrashInv(q: Queue, top: nat, out: set<Message>, maxInRam: nat)
    requires CrashInv(q, top, out) && q.durable && maxInRam < WORD64
    ensures CrashInv(Recover(Restarted(q.p, maxInRam)).(active := true), top, {})
  {
    RecoveredRuns(q, top, maxInRam);
    RecoveredBacked(q, out, maxInRam);
    RecoveredView(q, top, out, maxInRam);
    StartKeepsView(Recover(Restarted(q.p, maxInRam)));
  }

  lemma StartKeepsView(q: Queue)
    ensures View(q.(active := true)) == View(q) && (Inv(q) ==> Inv(q.(active := true)))
  {
    assert Pending(q.(active := true)) == Pending(q);
  }

  lemma RecoveredRuns(q: Queue, top: nat, maxInRam: nat)
    requires Keyed(q.p) && Bounded(q, top) && maxInRam < WORD64
    ensures RunInv(Recover(Restarted(q.p, maxInRam)).(active := true), top, {})
  {
    RecoverRebuilds(q.p, maxInRam);
    RecoveredBounded(q, top, maxInRam);
    StartKeepsView(Recover(Restarted(q.p, maxInRam)));
  }

  lemma RecoveredBacked(q: Queue, out: set<Message>, maxInRam: nat)
    requires Keyed(q.p) && Backed(q, out) && q.durable && maxInRam < WORD64
    ensures Backed(Recover(Restarted(q.p, maxInRam)).(active := true), {})
  {
    var after := Recover(Restarted(q.p, maxInRam)).(active := true);
    RecoverRebuilds(q.p, maxInRam);
    StartKeepsView(Recover(Restarted(q.p, maxInRam)));
    assert after.p == q.p && View(after) == InOrder(q.p) && after.durable;
    forall m: Message ensures m.id in after.p && after.p[m.id] == m <==> ToDisk(after, m) && m in View(after) {
      InOrderMember(q.p, m);
      assert m.id in q.p && q.p[m.id] == m <==> ToDisk(q, m) && (m in View(q) || m in out);
    }
  }

  lemma RecoveredBounded(q: Queue, top: nat, maxInRam: nat)
    requires Keyed(q.p) && Bounded(q, top) && maxInRam < WORD64
    ensures Bounded(Recover(Restarted(q.p, maxInRam)), top)
  {
    var after := Recover(Restarted(q.p, maxInRam));
    RecoverTakesPrefix(q.p, maxInRam);
    assert Stored(after) == q.p;
    forall k | k in q.p ensures k <= top { assert k in Stored(q); }
    if after.ram != [] {
      var last := after.ram[|after.ram| - 1];
      assert last == InOrder(q.p)[|after.ram| - 1];
      InOrderMember(q.p, last);
    }
  }

  /** One life of the queue: what it does, how its writes are flushed, and the limit it is restarted with. */
  datatype Epoch = Epoch(ops: seq<Op>, writes: seq<MsgStorages.Op<nat, Message>>, maxInRam: nat)

  ghost predicate Lived(q: Queue, top: nat, out: set<Message>, e: Epoch) {
    && q.maxInRam < WORD64 && e.maxInRam < WORD64
    && |Run(q, e.ops).1| == |e.ops| && Legal(top, out, e.ops, Run(q, e.ops).1)
    && Unflushed(e.writes) == AllWrites(q, e.ops)
  }

  /** The queue as the restart after an epoch leaves it. */
  function Restart(q: Queue, e: Epoch): Queue {
    var db := MsgStorages.Flushed(MsgStorages.Run(MsgStorages.State(q.p, MsgStorages.Empty()), e.writes));
    Recover(Restarted(db, e.maxInRam)).(active := true)
  }

  ghost predicate AllLived(q: Queue, top: nat, out: set<Message>, es: seq<Epoch>)
    decreases |es|
  {
    es == [] || (Lived(q, top, out, es[0]) && AllLived(Restart(q, es[0]), TopAfter(top, es[0].ops), {}, es[1..]))
  }

  function AfterRestarts(q: Queue, es: seq<Epoch>): Queue
    decreases |es|
  {
    if es == [] then q else AfterRestarts(Restart(q, es[0]), es[1..])
  }

  function TopAfterRestarts(top: nat, es: seq<Epoch>): nat
    decreases |es|
  {
    if es == [] then top else TopAfterRestarts(TopAfter(top, es[0].ops), es[1..])
  }

  lemma RestartKeepsCrashInv(q: Queue, top: nat, out: set<Message>, e: Epoch)
    requires CrashInv(q, top, out) && q.durable && Lived(q, top, out, e)
    ensures CrashInv(Restart(q, e), TopAfter(top, e.ops), {}) && Restart(q, e).durable
  {
    FlushedStore(q, top, out, e.ops, e.writes);
    RunKeepsConfig(q, e.ops);
    RunKeepsCrashInv(q, top, out, e.ops);
    RecoveredCrashInv(Run(q, e.ops).0, TopAfter(top, e.ops), OutAfter(out, e.ops, Run(q, e.ops).1), e.maxInRam);
  }

  /** Through any number of restarts the queue stays fit for the next: RestartRecovers applies to every one. */
  lemma {:induction false} RestartsKeepCrashInv(q: Queue, top: nat, out: set<Message>, es: seq<Epoch>)
    requires CrashInv(q, top, out) && q.durable && AllLived(q, top, out, es)
    ensures CrashInv(AfterRestarts(q, es), TopAfterRestarts(top, es), if es == [] then out else {})
    ensures AfterRestarts(q, es).durable
    decreases |es|
  {
    if es != [] {
      RestartKeepsCrashInv(q, top, out, es[0]);
      RestartsKeepCrashInv(Restart(q, es[0]), TopAfter(top, es[0].ops), {}, es[1..]);
    }
  }
}
