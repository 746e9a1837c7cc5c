/**
 Runs of the two-tier queue that start from a new queue: how RAM fills and spills, and
 the histories after which the obvious claims about loads, purges and pushes fail.
 */
module QueueRuns {
  import opened Options
  import opened Messages
  import opened BackedQueue
  import opened Words
  import Seqs

  function Mail(id: nat, persistent: bool): Message {
    Message(id, persistent, 0, "")
  }

  function Note(id: nat): Message {
    Mail(id, false)
  }

  function Kept(id: nat): Message {
    Mail(id, true)
  }

  /** Messages with the even IDs up to 2 * n. */
  function Mails(n: nat, persistent: bool): seq<Message> {
    seq(n, i requires 0 <= i < n => Mail(2 * i + 2, persistent))
  }

  function Pops(n: nat): seq<Op> {
    if n == 0 then [] else [OpPop([])] + Pops(n - 1)
  }

  /** Pushes of the messages after the first k up to the n-th, then whatever follows. */
  function History(k: nat, n: nat, persistent: bool, tail: seq<Op>): seq<Op>
    decreases n - k
  {
    if k < n then [OpPush(Mail(2 * k + 2, persistent))] + History(k + 1, n, persistent, tail) else tail
  }

  ghost predicate Possible(q: Queue, top: nat, ops: seq<Op>)
    requires q.maxInRam < WORD64
  {
    |Run(q, ops).1| == |ops| && Legal(top, {}, ops, Run(q, ops).1)
  }

  lemma {:induction false} PopsLegal(q: Queue, top: nat, out: set<Message>, n: nat)
    requires q.maxInRam < WORD64
    ensures |Run(q, Pops(n)).1| == |Pops(n)| && Legal(top, out, Pops(n), Run(q, Pops(n)).1)
    decreases n
  {
    RunLength(q, Pops(n));
    if n > 0 {
      var (q1, r) := Step(q, OpPop([]));
      assert Pops(n)[1..] == Pops(n - 1);
      PopsLegal(q1, top, if r.Some? then out + {r.value} else out, n - 1);
      assert Run(q, Pops(n)).1[1..] == Run(q1, Pops(n - 1)).1;
    }
  }

  lemma {:induction false} HistoryLegal(q: Queue, top: nat, k: nat, n: nat, persistent: bool, pops: nat)
    requires q.maxInRam < WORD64 && top <= 2 * k
    ensures Possible(q, top, History(k, n, persistent, Pops(pops)))
    decreases n - k
  {
    var ops := History(k, n, persistent, Pops(pops));
    RunLength(q, ops);
    if k < n {
      var q1 := Step(q, ops[0]).0;
      assert ops[1..] == History(k + 1, n, persistent, Pops(pops));
      HistoryLegal(q1, 2 * k + 2, k + 1, n, persistent, pops);
      assert Run(q, ops).1[1..] == Run(q1, ops[1..]).1;
    } else {
      PopsLegal(q, top, {}, pops);
    }
  }

  lemma {:induction false} RunConcat(q: Queue, a: seq<Op>, b: seq<Op>)
    requires q.maxInRam < WORD64
    ensures var (q1, rs) := Run(q, a);
            q1.maxInRam == q.maxInRam && Run(q, a + b) == (Run(q1, b).0, rs + Run(q1, b).1)
    decreases |a|
  {
    if a == [] {
      assert a + b == b && [] + Run(q, b).1 == Run(q, b).1;
    } else {
      var (q1, r) := Step(q, a[0]);
      RunConcat(q1, a[1..], b);
      assert (a + b)[0] == a[0] && (a + b)[1..] == a[1..] + b;
      Seqs.Assoc([r], Run(q1, a[1..]).1, Run(Run(q1, a[1..]).0, b).1);
    }
  }

  /** What four stages return. */
  lemma {:induction false} FourResults(q: Queue, a: seq<Op>, b: seq<Op>, c: seq<Op>, d: seq<Op>,
                                       q1: Queue, q2: Queue, q3: Queue)
    requires q.maxInRam < WORD64 && Run(q, a).0 == q1
    requires q1.maxInRam < WORD64 && Run(q1, b).0 == q2
    requires q2.maxInRam < WORD64 && Run(q2, c).0 == q3 && q3.maxInRam < WORD64
    ensures Run(q, a + (b + (c + d))).1 == Run(q, a).1 + (Run(q1, b).1 + (Run(q2, c).1 + Run(q3, d).1))
  {
    RunConcat(q, a, b + (c + d));
    RunConcat(q1, b, c + d);
    RunConcat(q2, c, d);
  }

  // ---------------------------------------------------------------- filling and spilling

  /** What the first n messages leave in the persistent store. */
  function Shelf(n: nat): Store {
    if n == 0 then map[] else Shelf(n - 1)[2 * n := Kept(2 * n)]
  }

  lemma {:induction false} ShelfKeys(n: nat)
    ensures Keyed(Shelf(n)) && forall k :: k in Shelf(n) ==> 2 <= k <= 2 * n
  {
    if n > 0 { ShelfKeys(n - 1); }
  }

  /** A queue that has taken n messages and still keeps them all in RAM. */
  function Filled(durable: bool, maxInRam: nat, n: nat, persistent: bool): Queue {
    Started(durable, maxInRam).(
      ram := Mails(n, persistent), p := if durable && persistent then Shelf(n) else map[],
      lastMem := 2 * n, length := n, metrics := Metrics(n, n, 0))
  }

  /** RAM takes one message more than its limit; the next one goes to a store. */
  function Spilled(durable: bool, maxInRam: nat, persistent: bool): Queue {
    var last, n := Mail(2 * maxInRam + 4, persistent), maxInRam + 2;
    Filled(durable, maxInRam, maxInRam + 1, persistent).(
      p := if durable && persistent then Shelf(n) else map[],
      t := if durable && persistent then map[] else map[last.id := last],
      swapped := true, lastStored := last.id, length := n, metrics := Metrics(n, n, 0))
  }

  lemma FillOne(durable: bool, maxInRam: nat, k: nat, persistent: bool)
    requires k <= maxInRam
    ensures Push(Filled(durable, maxInRam, k, persistent), Mail(2 * k + 2, persistent))
            == Filled(durable, maxInRam, k + 1, persistent)
  {
    assert Mails(k, persistent) + [Mail(2 * k + 2, persistent)] == Mails(k + 1, persistent);
  }

  lemma SpillOne(durable: bool, maxInRam: nat, persistent: bool)
    ensures Push(Filled(durable, maxInRam, maxInRam + 1, persistent), Mail(2 * maxInRam + 4, persistent))
            == Spilled(durable, maxInRam, persistent)
  {
  }

  lemma {:induction false} PopsDrop(q: Queue, n: nat)
    requires q.active && q.maxInRam < WORD64 && n <= |q.ram|
    ensures Run(q, Pops(n)).0 == q.(ram := q.ram[n..], length := q.length - n)
    decreases n
  {
    if n == 0 {
      assert q.ram[0..] == q.ram;
    } else {
      var q1 := Step(q, OpPop([])).0;
      assert Pops(n)[1..] == Pops(n - 1);
      PopsDrop(q1, n - 1);
      assert q.ram[1..][n - 1..] == q.ram[n..];
    }
  }

  lemma {:induction false} PopsReturn(q: Queue, n: nat)
    requires q.active && q.maxInRam < WORD64 && n <= |q.ram|
    ensures Run(q, Pops(n)).1 == Answers(q.ram[..n])
    decreases n
  {
    if n > 0 {
      var q1 := Step(q, OpPop([])).0;
      assert Pops(n)[1..] == Pops(n - 1);
      PopsReturn(q1, n - 1);
      assert q.ram[1..][..n - 1] == q.ram[..n][1..];
    }
  }

  /** Up to one more than the limit, pushes go to RAM. */
  lemma {:induction false} HistoryFills(durable: bool, maxInRam: nat, k: nat, n: nat, persistent: bool, tail: seq<Op>)
    requires maxInRam < WORD64 && k <= n <= maxInRam + 1
    ensures Run(Filled(durable, maxInRam, k, persistent), History(k, n, persistent, tail)).0
            == Run(Filled(durable, maxInRam, n, persistent), tail).0
    decreases n - k
  {
    if k < n {
      var ops := History(k, n, persistent, tail);
      assert ops[1..] == History(k + 1, n, persistent, tail);
      FillOne(durable, maxInRam, k, persistent);
      HistoryFills(durable, maxInRam, k + 1, n, persistent, tail);
    }
  }

  /** Enough pushes spill the queue, whatever its limit is. */
  lemma {:induction false} HistorySpills(durable: bool, maxInRam: nat, persistent: bool, tail: seq<Op>)
    requires maxInRam < WORD64
    ensures Run(Filled(durable, maxInRam, 0, persistent), History(0, maxInRam + 2, persistent, tail)).0
            == Run(Spilled(durable, maxInRam, persistent), tail).0
  {
    var n, last := maxInRam + 1, Mail(2 * maxInRam + 4, persistent);
    var tail' := [OpPush(last)] + tail;
    HistoryJoins(0, n, persistent, tail);
    HistoryFills(durable, maxInRam, 0, n, persistent, tail');
    SpillOne(durable, maxInRam, persistent);
    assert tail'[1..] == tail;
  }

  lemma {:induction false} HistoryJoins(k: nat, n: nat, persistent: bool, tail: seq<Op>)
    requires k <= n
    ensures History(k, n + 1, persistent, tail)
            == History(k, n, persistent, [OpPush(Mail(2 * n + 2, persistent))] + tail)
    decreases n - k
  {
    if k < n {
      HistoryJoins(k + 1, n, persistent, tail);
    } else {
      assert History(n + 1, n + 1, persistent, tail) == tail;
    }
  }

  /** The spilled queue, after any number of pops from RAM, is reached by a legal run of a new one. */
  lemma SpilledReached(durable: bool, maxInRam: nat, persistent: bool, pops: nat)
    requires maxInRam < WORD64 && pops <= maxInRam + 1
    ensures var q0, ops := Started(durable, maxInRam), History(0, maxInRam + 2, persistent, Pops(pops));
            var q := Spilled(durable, maxInRam, persistent);
            && Possible(q0, 0, ops)
            && Run(q0, ops).0 == q.(ram := q.ram[pops..], length := q.length - pops)
            && Inv(Run(q0, ops).0)
  {
    var q0, ops := Started(durable, maxInRam), History(0, maxInRam + 2, persistent, Pops(pops));
    HistoryLegal(q0, 0, 0, maxInRam + 2, persistent, pops);
    SpilledState(durable, maxInRam, persistent, pops);
    StartedRuns(durable, maxInRam);
    RunRefinesDeque(q0, 0, {}, ops);
  }

  lemma SpilledState(durable: bool, maxInRam: nat, persistent: bool, pops: nat)
    requires maxInRam < WORD64 && pops <= maxInRam + 1
    ensures var q := Spilled(durable, maxInRam, persistent);
            Run(Started(durable, maxInRam), History(0, maxInRam + 2, persistent, Pops(pops))).0
            == q.(ram := q.ram[pops..], length := q.length - pops)
  {
    NothingFilled(durable, maxInRam, persistent);
    HistorySpills(durable, maxInRam, persistent, Pops(pops));
    PopsDrop(Spilled(durable, maxInRam, persistent), pops);
  }

  lemma NothingFilled(durable: bool, maxInRam: nat, persistent: bool)
    ensures Filled(durable, maxInRam, 0, persistent) == Started(durable, maxInRam)
  {
    assert Mails(0, persistent) == [];
  }

  lemma SpilledPending(durable: bool, maxInRam: nat, ram: seq<Message>, length: int)
    ensures Pending(Spilled(durable, maxInRam, false).(ram := ram, length := length)) == [Note(2 * maxInRam + 4)]
  {
    var q, last := Spilled(durable, maxInRam, false).(ram := ram, length := length), Note(2 * maxInRam + 4);
    assert Above(Stored(q), q.lastMem) == map[last.id := last];
    OneInOrder(last);
  }

  // ---------------------------------------------------------------- loads

  /** Whatever legal history a new queue goes through, a load brings its head into RAM. */
  ghost predicate NeverStrands(durable: bool, maxInRam: nat)
    requires maxInRam < WORD64
  {
    forall ops :: Possible(Started(durable, maxInRam), 0, ops) ==>
      var q := Run(Started(durable, maxInRam), ops).0;
      q.maxInRam < WORD64 && (View(q) != [] ==> Load(q).ram != [])
  }

  lemma {:induction false} RunKeepsLimit(q: Queue, ops: seq<Op>)
    requires q.maxInRam < WORD64
    ensures Run(q, ops).0.maxInRam == q.maxInRam
    decreases |ops|
  {
    if ops != [] { RunKeepsLimit(Step(q, ops[0]).0, ops[1..]); }
  }

  /** Room for two messages is exactly what it takes. With less, a queue that spilled and was then emptied keeps
      its last message in the store for ever. */
  lemma NeverStrandsIff(durable: bool, maxInRam: nat)
    requires maxInRam < WORD64
    ensures NeverStrands(durable, maxInRam) <==> maxInRam >= 2
  {
    var q0 := Started(durable, maxInRam);
    if maxInRam >= 2 {
      forall ops | Possible(q0, 0, ops)
        ensures Run(q0, ops).0.maxInRam < WORD64
        ensures View(Run(q0, ops).0) != [] ==> Load(Run(q0, ops).0).ram != []
      {
        StartedRuns(durable, maxInRam);
        RunRefinesDeque(q0, 0, {}, ops);
        RunKeepsLimit(q0, ops);
        if View(Run(q0, ops).0) != [] { LoadMakesProgress(Run(q0, ops).0); }
      }
    } else {
      var n := maxInRam + 1;
      var ops, q := History(0, n + 1, false, Pops(n)), Spilled(durable, maxInRam, false);
      SpilledReached(durable, maxInRam, false, n);
      var q' := q.(ram := [], length := q.length - n);
      assert q.ram[n..] == [];
      SpilledPending(durable, maxInRam, [], q.length - n);
      assert Run(q0, ops).0 == q' && Load(q') == q';
    }
  }

  // ---------------------------------------------------------------- purges

  /** A purge of a spilled queue reports it empty and leaves the spilled message in it. */
  lemma PurgeLeavesTransient(durable: bool, maxInRam: nat)
    requires maxInRam < WORD64
    ensures var q0, ops := Started(durable, maxInRam), History(0, maxInRam + 2, false, []);
            var q := Run(q0, ops).0;
            Possible(q0, 0, ops) && Purge(q).length == 0 && View(Purge(q)) == [Note(2 * maxInRam + 4)]
  {
    var q := Spilled(durable, maxInRam, false);
    SpilledReached(durable, maxInRam, false, 0);
    assert q.ram[0..] == q.ram;
    SpilledPending(durable, maxInRam, [], 0);
    var q1 := q.(ram := [], length := 0);
    assert Stored(Purge(q)) == Stored(q1);
  }

  // ---------------------------------------------------------------- messages out of reach

  /** No message with this ID is in RAM or with a consumer, and a load would scan from beyond it. */
  ghost predicate OutOfReach(q: Queue, id: nat, top: nat, out: set<Message>) {
    && q.maxInRam < WORD64 && Keyed(q.p) && Keyed(q.t) && id <= top
    && (forall i :: 0 <= i < |q.ram| ==> q.ram[i].id != id)
    && (forall m :: m in out ==> m.id != id)
    && (q.swapped ==> id < q.lastStored)
  }

  ghost predicate NotBefore(ms: seq<Message>, id: nat) {
    forall i :: 0 <= i < |ms| ==> id <= ms[i].id
  }

  lemma ScanNotBefore(m: Store, from: nat, limit: nat)
    requires Keyed(m)
    ensures NotBefore(Scan(m, from, limit), from)
  {
    var all := InOrder(From(m, from));
    forall i | 0 <= i < |all| ensures from <= all[i].id { InOrderMember(From(m, from), all[i]); }
  }

  lemma {:induction false} MergeNotBefore(a: seq<Message>, b: seq<Message>, id: nat)
    requires NotBefore(a, id) && NotBefore(b, id)
    ensures NotBefore(MergeById(a, b), id)
    decreases |a| + |b|
  {
    if a != [] && b != [] {
      if a[0].id < b[0].id { MergeNotBefore(a[1..], b, id); } else { MergeNotBefore(a, b[1..], id); }
    }
  }

  lemma {:induction false} DropNotBefore(ms: seq<Message>, drop: nat, id: nat)
    requires NotBefore(ms, id)
    ensures NotBefore(DropId(ms, drop), id)
  {
    if ms != [] { DropNotBefore(ms[1..], drop, id); }
  }

  /** What a load takes lies at the scan position or beyond. */
  lemma LoadTakesFrom(q: Queue)
    requires q.maxInRam < WORD64 && Keyed(q.p) && Keyed(q.t) && !LoadSkips(q)
    ensures exists taken :: NotBefore(taken, q.lastStored) && Load(q) == Take(q, taken).(swapped := Load(q).swapped)
  {
    var n := Needle(q);
    var fromP, fromT := Scan(q.p, q.lastStored, n), Scan(q.t, q.lastStored, n);
    ScanNotBefore(q.p, q.lastStored, n);
    ScanNotBefore(q.t, q.lastStored, n);
    MergeNotBefore(fromP, fromT, q.lastStored);
    DropNotBefore(First(n, MergeById(fromP, fromT)), q.lastMem, q.lastStored);
    assert Load(q) == Take(q, Loadable(MergeById(fromP, fromT), n, q.lastMem)).(swapped := Load(q).swapped);
  }

  lemma LoadStaysOut(q: Queue, id: nat, top: nat, out: set<Message>)
    requires OutOfReach(q, id, top, out)
    ensures OutOfReach(Load(q), id, top, out)
  {
    if !LoadSkips(q) {
      LoadTakesFrom(q);
      var taken :| NotBefore(taken, q.lastStored) && Load(q) == Take(q, taken).(swapped := Load(q).swapped);
    }
  }

  /** Whatever legal history follows, no pop ever returns the message. */
  lemma {:induction false} NeverReturned(q: Queue, id: nat, top: nat, out: set<Message>, ops: seq<Op>)
    requires OutOfReach(q, id, top, out)
    requires |Run(q, ops).1| == |ops| && Legal(top, out, ops, Run(q, ops).1)
    ensures forall i :: 0 <= i < |ops| && Run(q, ops).1[i].Some? ==> Run(q, ops).1[i].value.id != id
    decreases |ops|
  {
    if ops != [] {
      var (q1, r) := Step(q, ops[0]);
      RunUnfolds(q, ops);
      var top', out' := top, out;
      match ops[0] {
        case OpPush(m) => top' := m.id;
        case OpPop(_) => out' := if r.Some? then out + {r.value} else out;
        case OpRequeue(m) => out' := out - {m};
        case OpAck(m) => out' := out - {m};
        case OpLoad => LoadStaysOut(q, id, top, out);
      }
      NeverReturned(q1, id, top', out', ops[1..]);
      forall i | 0 <= i < |ops| && Run(q, ops).1[i].Some? ensures Run(q, ops).1[i].value.id != id {
        if i > 0 { assert Run(q, ops).1[i] == Run(q1, ops[1..]).1[i - 1]; }
      }
    }
  }

  // ---------------------------------------------------------------- pushes out of order

  /** On a spilled queue a message with an older ID is counted and never seen again. */
  lemma OldIdLost(durable: bool, maxInRam: nat)
    requires maxInRam < WORD64
    ensures var q0, ops := Started(durable, maxInRam), History(0, maxInRam + 2, false, []);
            var q, late := Run(q0, ops).0, Note(1);
            && Possible(q0, 0, ops)
            && View(Push(q, late)) == View(q) && Push(q, late).length == |View(q)| + 1
            && OutOfReach(Push(q, late), late.id, 2 * maxInRam + 4, {})
  {
    var q := Spilled(durable, maxInRam, false);
    SpilledReached(durable, maxInRam, false, 0);
    assert q.ram[0..] == q.ram;
    OldOutOfReach(q, Note(1), 2 * maxInRam + 4);
  }

  /** On a spilled queue, a message whose ID is before RAM's last and before the scan position. */
  lemma OldOutOfReach(q: Queue, m: Message, top: nat)
    requires q.active && Inv(q) && q.swapped && m.id <= q.lastMem && m.id < q.lastStored && m.id <= top
    requires m.id !in Stored(q) && forall i :: 0 <= i < |q.ram| ==> q.ram[i].id != m.id
    ensures View(Push(q, m)) == View(q) && Push(q, m).length == |View(q)| + 1 && OutOfReach(Push(q, m), m.id, top, {})
  {
    PushStores(q, m);
  }

  /** One whose ID lies between RAM and the store overtakes. */
  lemma NewerIdOvertaken(durable: bool, maxInRam: nat)
    requires maxInRam < WORD64
    ensures var q0, ops := Started(durable, maxInRam), History(0, maxInRam + 2, false, []);
            var q, between := Run(q0, ops).0, Note(2 * maxInRam + 3);
            Possible(q0, 0, ops) && View(Push(q, between)) == q.ram + [between, Note(2 * maxInRam + 4)]
  {
    var q, between, last := Spilled(durable, maxInRam, false), Note(2 * maxInRam + 3), Note(2 * maxInRam + 4);
    SpilledReached(durable, maxInRam, false, 0);
    assert q.ram[0..] == q.ram;
    assert Above(Stored(q), q.lastMem) == map[last.id := last];
    Overtaken(q, between, last);
  }

  lemma Overtaken(q: Queue, m: Message, last: Message)
    requires q.active && StoresOk(q) && q.swapped && q.lastMem < m.id < last.id && m.id !in Stored(q)
    requires Above(Stored(q), q.lastMem) == map[last.id := last]
    ensures View(Push(q, m)) == q.ram + [m, last]
  {
    PushStores(q, m);
    OrderPrepend(map[last.id := last], m);
    OneInOrder(last);
    assert [m] + [last] == [m, last];
  }

  /** A queue that spilled, was emptied by its consumers and was then purged looks empty and keeps its scan position:
      a message whose ID lies before that position joins the view, is counted, and is never delivered. */
  lemma PurgedThenSkipped(maxInRam: nat)
    requires maxInRam < WORD64
    ensures var q0, ops := Started(true, maxInRam), History(0, maxInRam + 2, true, Pops(maxInRam + 1));
            var q, m := Purge(Run(q0, ops).0), Note(2 * maxInRam + 3);
            && Possible(q0, 0, ops) && Inv(q) && View(q) == []
            && View(Push(q, m)) == [m] && Push(q, m).length == 1
            && OutOfReach(Push(q, m), m.id, 2 * maxInRam + 4, {})
  {
    var n, m := maxInRam + 1, Note(2 * maxInRam + 3);
    var s := Spilled(true, maxInRam, true);
    SpilledReached(true, maxInRam, true, n);
    assert s.ram[n..] == [];
    var q := Purge(s.(ram := [], length := s.length - n));
    assert Stored(q) == map[];
    NothingAbove(q);
    PushStores(q, m);
    assert Above(Stored(Push(q, m)), q.lastMem) == map[m.id := m];
    OneInOrder(m);
  }

  /** The first message to spill is an older one: the next load scans from its ID and brings back what consumers
      still hold. */
  function Reordered(maxInRam: nat): seq<Op> {
    History(0, maxInRam + 1, true, [OpPush(Kept(1))] + (Pops(maxInRam + 1) + ([OpLoad] + Pops(2))))
  }

  /** Full of persistent messages, then spilled by message 1. */
  function Rewound(maxInRam: nat): Queue {
    var n := maxInRam + 2;
    Filled(true, maxInRam, maxInRam + 1, true).(
      p := Shelf(maxInRam + 1)[1 := Kept(1)], swapped := true, lastStored := 1, length := n,
      metrics := Metrics(n, n, 0))
  }

  lemma {:induction false} ShelfFirst(n: nat)
    requires n >= 1
    ensures |InOrder(Shelf(n))| == n && InOrder(Shelf(n))[0] == Kept(2)
  {
    ShelfKeys(n - 1);
    OrderAppend(Shelf(n - 1), Kept(2 * n));
    if n == 1 {
      InOrderLength(Shelf(0));
    } else {
      ShelfFirst(n - 1);
    }
  }

  lemma RewoundFinds(maxInRam: nat)
    requires 2 <= maxInRam
    ensures var found := Scan(Rewound(maxInRam).p, 1, maxInRam);
            |found| >= 2 && found[0] == Kept(1) && found[1] == Kept(2)
  {
    var p, n := Rewound(maxInRam).p, maxInRam + 1;
    ShelfKeys(n);
    ShelfFirst(n);
    OrderPrepend(Shelf(n), Kept(1));
    assert From(p, 1) == p;
    assert InOrder(p)[0] == Kept(1) && InOrder(p)[1] == InOrder(Shelf(n))[0];
  }

  /** With RAM empty, a load of the rewound queue starts with messages 1 and 2. */
  lemma RewoundLoads(maxInRam: nat, length: int)
    requires 2 <= maxInRam < WORD64
    ensures var q := Load(Rewound(maxInRam).(ram := [], length := length));
            q.active && q.maxInRam == maxInRam && |q.ram| >= 2 && q.ram[0] == Kept(1) && q.ram[1] == Kept(2)
  {
    var q := Rewound(maxInRam).(ram := [], length := length);
    RewoundFinds(maxInRam);
    LoadOfEmpty(q);
    LoadsFirstTwo(Scan(q.p, 1, maxInRam), maxInRam, q.lastMem);
  }

  lemma LoadOfEmpty(q: Queue)
    requires q.swapped && q.ram == [] && q.t == map[] && 2 <= q.maxInRam < WORD64
    ensures Load(q).ram == Loadable(Scan(q.p, q.lastStored, q.maxInRam), q.maxInRam, q.lastMem)
    ensures Load(q).active == q.active && Load(q).maxInRam == q.maxInRam
  {
    var found := Scan(q.p, q.lastStored, q.maxInRam);
    assert Needle(q) == q.maxInRam;
    assert From(q.t, q.lastStored) == map[];
    InOrderLength(From(q.t, q.lastStored));
    assert MergeById(found, []) == found;
  }

  lemma LoadsFirstTwo(found: seq<Message>, needle: nat, lastMem: nat)
    requires 2 <= |found| && needle >= 2 && found[0].id != lastMem && found[1].id != lastMem
    ensures var ms := Loadable(found, needle, lastMem);
            |ms| >= 2 && ms[0] == found[0] && ms[1] == found[1]
  {
    var s := First(needle, found);
    assert DropId(s, lastMem) == [s[0]] + DropId(s[1..], lastMem);
    assert DropId(s[1..], lastMem) == [s[1]] + DropId(s[1..][1..], lastMem);
  }

  lemma {:induction false} HistorySplits(k: nat, n: nat, persistent: bool, tail: seq<Op>)
    ensures History(k, n, persistent, tail) == History(k, n, persistent, []) + tail
    decreases n - k
  {
    if k < n {
      HistorySplits(k + 1, n, persistent, tail);
    } else {
      assert [] + tail == tail;
    }
  }

  lemma {:induction false} OneStep(q: Queue, op: Op)
    requires q.maxInRam < WORD64
    ensures Run(q, [op]) == (Step(q, op).0, [Step(q, op).1])
  {
    var (q1, r) := Step(q, op);
    assert [op][1..] == [] && Run(q1, []) == (q1, []) && [r] + [] == [r];
  }

  lemma {:induction false} LoadFirst(q: Queue, ops: seq<Op>)
    requires q.maxInRam < WORD64
    ensures Run(q, [OpLoad] + ops).0 == Run(Load(q), ops).0
  {
    assert ([OpLoad] + ops)[1..] == ops;
  }

  /** From the full queue on. */
  lemma {:induction false} RewoundResults(maxInRam: nat)
    requires 2 <= maxInRam < WORD64
    ensures var n := maxInRam + 1;
            var q := Filled(true, maxInRam, n, true);
            var rs := Run(q, [OpPush(Kept(1))] + (Pops(n) + ([OpLoad] + Pops(2)))).1;
            |rs| == n + 4 && rs[1] == Some(Kept(2)) && rs[n + 3] == Some(Kept(2))
  {
    var n := maxInRam + 1;
    var q0, q1 := Filled(true, maxInRam, n, true), Rewound(maxInRam);
    var q2 := q1.(ram := [], length := 1);
    var q3 := Load(q2);
    RewoundPush(maxInRam);
    RewoundPops(maxInRam);
    assert Run(q2, [OpLoad]) == (q3, [None]) by { OneStep(q2, OpLoad); }
    RewoundLoads(maxInRam, 1);
    LoadedPops(q3);
    FourResults(q0, [OpPush(Kept(1))], Pops(n), [OpLoad], Pops(2), q1, q2, q3);
    Twice([None], Run(q1, Pops(n)).1, [None], Run(q3, Pops(2)).1, Kept(2));
  }

  lemma {:induction false} LoadedPops(q: Queue)
    requires q.active && q.maxInRam < WORD64 && |q.ram| >= 2
    ensures Run(q, Pops(2)).1 == [Some(q.ram[0]), Some(q.ram[1])]
  {
    PopsReturn(q, 2);
    assert q.ram[..2] == [q.ram[0]] + [q.ram[1]];
    AnswersTwo(q.ram[0], q.ram[1]);
  }

  lemma Twice(a: seq<Option<Message>>, b: seq<Option<Message>>, c: seq<Option<Message>>, d: seq<Option<Message>>,
              m: Message)
    requires |a| == 1 && b != [] && b[0] == Some(m) && |c| == 1 && |d| == 2 && d[1] == Some(m)
    ensures var rs := a + (b + (c + d));
            |rs| == |b| + 4 && rs[1] == Some(m) && rs[|b| + 3] == Some(m)
  {
  }

  lemma {:induction false} RewoundPush(maxInRam: nat)
    requires maxInRam < WORD64
    ensures Run(Filled(true, maxInRam, maxInRam + 1, true), [OpPush(Kept(1))]) == (Rewound(maxInRam), [None])
  {
    OneStep(Filled(true, maxInRam, maxInRam + 1, true), OpPush(Kept(1)));
  }

  lemma {:induction false} RewoundPops(maxInRam: nat)
    requires maxInRam < WORD64
    ensures var n, q := maxInRam + 1, Rewound(maxInRam);
            var (q', rs) := Run(q, Pops(n));
            q' == q.(ram := [], length := 1) && |rs| == n && rs[0] == Some(Kept(2))
  {
    var n, q := maxInRam + 1, Rewound(maxInRam);
    PopsDrop(q, n);
    PopsReturn(q, n);
    assert q.ram[n..] == [] && q.ram[..n] == q.ram;
    AnswersLength(q.ram);
  }

  lemma AnswersTwo(a: Message, b: Message)
    ensures Answers([a] + [b]) == [Some(a), Some(b)]
  {
    assert ([a] + [b])[1..] == [b] && [b][1..] == [];
    assert Answers([b]) == [Some(b)] + Answers([]);
  }

  lemma {:induction false} AnswersLength(ms: seq<Message>)
    ensures |Answers(ms)| == |ms|
  {
    if ms != [] { AnswersLength(ms[1..]); }
  }

  /** For every limit of at least two, message 2 is delivered twice though nothing was requeued. */
  lemma DeliveredTwice(maxInRam: nat)
    requires 2 <= maxInRam < WORD64
    ensures var rs := Run(Started(true, maxInRam), Reordered(maxInRam)).1;
            exists i, j :: 0 <= i < j < |rs| && rs[i] == Some(Kept(2)) && rs[j] == Some(Kept(2))
  {
    var q0, n := Started(true, maxInRam), maxInRam + 1;
    var fill, tail := History(0, n, true, []), [OpPush(Kept(1))] + (Pops(n) + ([OpLoad] + Pops(2)));
    NothingFilled(true, maxInRam, true);
    HistoryFills(true, maxInRam, 0, n, true, []);
    HistorySplits(0, n, true, tail);
    RunConcat(q0, fill, tail);
    RewoundResults(maxInRam);
    var a, rs := |Run(q0, fill).1|, Run(q0, fill + tail).1;
    assert rs[a + 1] == Some(Kept(2)) && rs[a + n + 3] == Some(Kept(2));
  }

  lemma OneInOrder(m: Message)
    ensures InOrder(map[m.id := m]) == [m]
  {
    InOrderLength(map[m.id := m]);
    InOrderMember(map[m.id := m], m);
  }
}
