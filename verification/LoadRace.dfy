/**
 The two goroutines of mayBeLoadFromStorage (queue/queue.go). Each walks its store and
 writes the ID it is at into one variable that both share; when it is done it compares
 that variable with lastMemMsgID and may clear its flag. Their steps interleave freely.
 */
module LoadRace {
  import opened Options
  import opened Messages
  import opened BackedQueue
  import QueueRuns
  import Recovery
  import opened Words

  /** Positions of the two walks, the shared variable, and the flags once they are decided. */
  datatype Race = Race(i: nat, j: nat, last: nat, p: Option<bool>, t: Option<bool>)

  function Decided(ids: seq<nat>, lastMem: nat, last: nat): bool {
    !(ids == [] || lastMem == last)
  }

  /** One step of the persistent walk or of the transient one. */
  function Move(ps: seq<nat>, ts: seq<nat>, lastMem: nat, r: Race, persistent: bool): Race {
    if persistent then
      if r.i < |ps| then r.(i := r.i + 1, last := ps[r.i])
      else if r.p.None? then r.(p := Some(Decided(ps, lastMem, r.last))) else r
    else
      if r.j < |ts| then r.(j := r.j + 1, last := ts[r.j])
      else if r.t.None? then r.(t := Some(Decided(ts, lastMem, r.last))) else r
  }

  function Moves(ps: seq<nat>, ts: seq<nat>, lastMem: nat, r: Race, schedule: seq<bool>): Race
    decreases |schedule|
  {
    if schedule == [] then r else Moves(ps, ts, lastMem, Move(ps, ts, lastMem, r, schedule[0]), schedule[1..])
  }

  const START := Race(0, 0, 0, None, None)

  /** Both walks are over and the queue counts as swapped, or not. */
  ghost predicate Ends(ps: seq<nat>, ts: seq<nat>, lastMem: nat, schedule: seq<bool>, swapped: bool) {
    var r := Moves(ps, ts, lastMem, START, schedule);
    r.p.Some? && r.t.Some? && swapped == (r.p.value || r.t.value)
  }

  predicate EndsAt(ids: seq<nat>, id: nat) {
    ids != [] && ids[|ids| - 1] == id
  }

  /** The flag with the two walks one after the other. */
  predicate Apart(ps: seq<nat>, ts: seq<nat>, lastMem: nat) {
    (ps != [] && !EndsAt(ps, lastMem)) || (ts != [] && !EndsAt(ts, lastMem))
  }

  // ---------------------------------------------------------------- what a schedule can do

  /** The shared variable holds the last ID of one of the walks, and a cleared flag has a reason. */
  ghost predicate RaceInv(ps: seq<nat>, ts: seq<nat>, lastMem: nat, r: Race) {
    && r.i <= |ps| && r.j <= |ts|
    && (r.i > 0 || r.j > 0 ==> (r.i > 0 && r.last == ps[r.i - 1]) || (r.j > 0 && r.last == ts[r.j - 1]))
    && (r.p.Some? ==> r.i == |ps|) && (r.t.Some? ==> r.j == |ts|)
    && (r.p == Some(false) ==> ps == [] || EndsAt(ps, lastMem) || lastMem in ts)
    && (r.t == Some(false) ==> ts == [] || EndsAt(ts, lastMem) || lastMem in ps)
    && (r.p == Some(true) ==> ps != [] && (EndsAt(ps, lastMem) ==> ts != []))
    && (r.t == Some(true) ==> ts != [] && (EndsAt(ts, lastMem) ==> ps != []))
  }

  lemma {:induction false} MoveInv(ps: seq<nat>, ts: seq<nat>, lastMem: nat, r: Race, persistent: bool)
    requires RaceInv(ps, ts, lastMem, r)
    ensures RaceInv(ps, ts, lastMem, Move(ps, ts, lastMem, r, persistent))
  {
  }

  lemma {:induction false} MovesInv(ps: seq<nat>, ts: seq<nat>, lastMem: nat, r: Race, schedule: seq<bool>)
    requires RaceInv(ps, ts, lastMem, r)
    ensures RaceInv(ps, ts, lastMem, Moves(ps, ts, lastMem, r, schedule))
    decreases |schedule|
  {
    if schedule != [] {
      MoveInv(ps, ts, lastMem, r, schedule[0]);
      MovesInv(ps, ts, lastMem, Move(ps, ts, lastMem, r, schedule[0]), schedule[1..]);
    }
  }

  lemma {:induction false} MovesConcat(ps: seq<nat>, ts: seq<nat>, lastMem: nat, r: Race, a: seq<bool>, b: seq<bool>)
    ensures Moves(ps, ts, lastMem, r, a + b) == Moves(ps, ts, lastMem, Moves(ps, ts, lastMem, r, a), b)
    decreases |a|
  {
    if a == [] {
      assert a + b == b;
    } else {
      MovesConcat(ps, ts, lastMem, Move(ps, ts, lastMem, r, a[0]), a[1..], b);
      assert (a + b)[0] == a[0] && (a + b)[1..] == a[1..] + b;
    }
  }

  predicate Over(r: Race) {
    r.p.Some? && r.t.Some?
  }

  lemma {:induction false} MovesStop(ps: seq<nat>, ts: seq<nat>, lastMem: nat, r: Race, schedule: seq<bool>)
    requires RaceInv(ps, ts, lastMem, r) && Over(r)
    ensures Moves(ps, ts, lastMem, r, schedule) == r
    decreases |schedule|
  {
    if schedule != [] { MovesStop(ps, ts, lastMem, r, schedule[1..]); }
  }

  /** What goes on after both walks are over changes nothing. */
  lemma {:induction false} LongerSchedule(ps: seq<nat>, ts: seq<nat>, lastMem: nat, a: seq<bool>, b: seq<bool>)
    requires Over(Moves(ps, ts, lastMem, START, a))
    ensures Moves(ps, ts, lastMem, START, a + b) == Moves(ps, ts, lastMem, START, a)
  {
    MovesInv(ps, ts, lastMem, START, a);
    MovesConcat(ps, ts, lastMem, START, a, b);
    MovesStop(ps, ts, lastMem, Moves(ps, ts, lastMem, START, a), b);
  }

  lemma {:induction false} MovesSnoc(ps: seq<nat>, ts: seq<nat>, lastMem: nat, a: seq<bool>, persistent: bool)
    ensures Moves(ps, ts, lastMem, START, a + [persistent])
            == Move(ps, ts, lastMem, Moves(ps, ts, lastMem, START, a), persistent)
  {
    MovesConcat(ps, ts, lastMem, START, a, [persistent]);
    var r := Moves(ps, ts, lastMem, START, a);
    assert [persistent][1..] == [] && Moves(ps, ts, lastMem, Move(ps, ts, lastMem, r, persistent), [])
                                      == Move(ps, ts, lastMem, r, persistent);
  }

  function Turns(n: nat, persistent: bool): seq<bool> {
    seq(n, _ => persistent)
  }

  lemma {:induction false} WalkP(ps: seq<nat>, ts: seq<nat>, lastMem: nat, r: Race, n: nat)
    requires r.i + n <= |ps|
    ensures Moves(ps, ts, lastMem, r, Turns(n, true))
            == r.(i := r.i + n, last := if n == 0 then r.last else ps[r.i + n - 1])
    decreases n
  {
    if n > 0 {
      assert Turns(n, true)[1..] == Turns(n - 1, true);
      WalkP(ps, ts, lastMem, Move(ps, ts, lastMem, r, true), n - 1);
    }
  }

  lemma {:induction false} WalkT(ps: seq<nat>, ts: seq<nat>, lastMem: nat, r: Race, n: nat)
    requires r.j + n <= |ts|
    ensures Moves(ps, ts, lastMem, r, Turns(n, false))
            == r.(j := r.j + n, last := if n == 0 then r.last else ts[r.j + n - 1])
    decreases n
  {
    if n > 0 {
      assert Turns(n, false)[1..] == Turns(n - 1, false);
      WalkT(ps, ts, lastMem, Move(ps, ts, lastMem, r, false), n - 1);
    }
  }

  lemma {:induction false} TwoMoves(ps: seq<nat>, ts: seq<nat>, lastMem: nat, r: Race, a: bool, b: bool)
    ensures Moves(ps, ts, lastMem, r, [a, b]) == Move(ps, ts, lastMem, Move(ps, ts, lastMem, r, a), b)
  {
    assert [a, b][1..] == [b] && [b][1..] == [];
    var r2 := Move(ps, ts, lastMem, Move(ps, ts, lastMem, r, a), b);
    assert Moves(ps, ts, lastMem, r2, []) == r2;
    assert Moves(ps, ts, lastMem, Move(ps, ts, lastMem, r, a), [b]) == r2;
  }

  /** Both walks, then both decisions. */
  lemma {:induction false} TransientFirst(ps: seq<nat>, ts: seq<nat>, lastMem: nat) returns (schedule: seq<bool>)
    requires EndsAt(ps, lastMem) || (ps == [] && !Apart(ps, ts, lastMem))
    ensures Ends(ps, ts, lastMem, schedule, false)
  {
    var walks := Turns(|ts|, false) + Turns(|ps|, true);
    WalkT(ps, ts, lastMem, START, |ts|);
    var r1 := Moves(ps, ts, lastMem, START, Turns(|ts|, false));
    WalkP(ps, ts, lastMem, r1, |ps|);
    MovesConcat(ps, ts, lastMem, START, Turns(|ts|, false), Turns(|ps|, true));
    schedule := walks + [true, false];
    MovesConcat(ps, ts, lastMem, START, walks, [true, false]);
    TwoMoves(ps, ts, lastMem, Moves(ps, ts, lastMem, START, walks), true, false);
  }

  lemma {:induction false} PersistentFirst(ps: seq<nat>, ts: seq<nat>, lastMem: nat) returns (schedule: seq<bool>)
    requires EndsAt(ts, lastMem)
    ensures Ends(ps, ts, lastMem, schedule, false)
  {
    var walks := Turns(|ps|, true) + Turns(|ts|, false);
    WalkP(ps, ts, lastMem, START, |ps|);
    var r1 := Moves(ps, ts, lastMem, START, Turns(|ps|, true));
    WalkT(ps, ts, lastMem, r1, |ts|);
    MovesConcat(ps, ts, lastMem, START, Turns(|ps|, true), Turns(|ts|, false));
    schedule := walks + [true, false];
    MovesConcat(ps, ts, lastMem, START, walks, [true, false]);
    TwoMoves(ps, ts, lastMem, Moves(ps, ts, lastMem, START, walks), true, false);
  }

  /** One walk with its decision after the other gives what the sequential model gives. */
  lemma {:induction false} OneAfterTheOther(ps: seq<nat>, ts: seq<nat>, lastMem: nat) returns (schedule: seq<bool>)
    ensures Ends(ps, ts, lastMem, schedule, Apart(ps, ts, lastMem))
  {
    var a, b := Turns(|ps|, true) + [true], Turns(|ts|, false) + [false];
    WalkP(ps, ts, lastMem, START, |ps|);
    var r1 := Moves(ps, ts, lastMem, START, Turns(|ps|, true));
    MovesConcat(ps, ts, lastMem, START, Turns(|ps|, true), [true]);
    OneMove(ps, ts, lastMem, r1, true);
    var r2 := Move(ps, ts, lastMem, r1, true);
    WalkT(ps, ts, lastMem, r2, |ts|);
    var r3 := Moves(ps, ts, lastMem, r2, Turns(|ts|, false));
    MovesConcat(ps, ts, lastMem, r2, Turns(|ts|, false), [false]);
    OneMove(ps, ts, lastMem, r3, false);
    MovesConcat(ps, ts, lastMem, START, a, b);
    schedule := a + b;
  }

  lemma {:induction false} OneMove(ps: seq<nat>, ts: seq<nat>, lastMem: nat, r: Race, a: bool)
    ensures Moves(ps, ts, lastMem, r, [a]) == Move(ps, ts, lastMem, r, a)
  {
    var r1 := Move(ps, ts, lastMem, r, a);
    assert [a][1..] == [] && Moves(ps, ts, lastMem, r1, []) == r1;
  }

  ghost predicate Disjoint(ps: seq<nat>, ts: seq<nat>) {
    forall id :: id in ps ==> id !in ts
  }

  /** Some schedule clears the flag exactly when the walks apart would, or when both find something and one of them
      ends at the message that RAM ends with. */
  lemma {:induction false} ClearsIff(ps: seq<nat>, ts: seq<nat>, lastMem: nat)
    requires Disjoint(ps, ts)
    ensures (exists schedule :: Ends(ps, ts, lastMem, schedule, false)) <==>
              !Apart(ps, ts, lastMem) || (ps != [] && ts != [] && (EndsAt(ps, lastMem) || EndsAt(ts, lastMem)))
  {
    if schedule :| Ends(ps, ts, lastMem, schedule, false) {
      MovesInv(ps, ts, lastMem, START, schedule);
    }
    if EndsAt(ps, lastMem) || (ps == [] && !Apart(ps, ts, lastMem)) {
      var schedule := TransientFirst(ps, ts, lastMem);
    } else if EndsAt(ts, lastMem) {
      var schedule := PersistentFirst(ps, ts, lastMem);
    }
  }

  /** Some schedule leaves the flag set exactly when the walks apart would. */
  lemma {:induction false} KeepsIff(ps: seq<nat>, ts: seq<nat>, lastMem: nat)
    requires Disjoint(ps, ts)
    ensures (exists schedule :: Ends(ps, ts, lastMem, schedule, true)) <==> Apart(ps, ts, lastMem)
  {
    if schedule :| Ends(ps, ts, lastMem, schedule, true) {
      MovesInv(ps, ts, lastMem, START, schedule);
      assert EndsAt(ps, lastMem) ==> lastMem in ps;
      assert EndsAt(ts, lastMem) ==> lastMem in ts;
    }
    var schedule := OneAfterTheOther(ps, ts, lastMem);
  }

  // ---------------------------------------------------------------- loads of a queue

  function Ids(ms: seq<Message>): seq<nat> {
    seq(|ms|, i requires 0 <= i < |ms| => ms[i].id)
  }

  function FoundIds(q: Queue, store: Store): seq<nat>
    requires q.maxInRam < WORD64
  {
    Ids(Scan(store, q.lastStored, Needle(q)))
  }

  /** The flag that a racing load with this schedule leaves. */
  ghost predicate Leaves(q: Queue, schedule: seq<bool>, swapped: bool)
    requires q.maxInRam < WORD64
  {
    Ends(FoundIds(q, q.p), FoundIds(q, q.t), q.lastMem, schedule, swapped)
  }

  /** A racing load of the queue may leave this flag. */
  ghost predicate MayLeave(q: Queue, swapped: bool)
    requires q.maxInRam < WORD64
  {
    exists schedule :: Ends(FoundIds(q, q.p), FoundIds(q, q.t), q.lastMem, schedule, swapped)
  }

  lemma {:induction false} FoundInStore(q: Queue, store: Store, id: nat)
    requires q.maxInRam < WORD64 && Keyed(store) && id in FoundIds(q, store)
    ensures id in store
  {
    var found, from := Scan(store, q.lastStored, Needle(q)), From(store, q.lastStored);
    var i :| 0 <= i < |found| && found[i].id == id;
    assert found[i] in InOrder(from);
    InOrderMember(from, found[i]);
  }

  lemma {:induction false} FoundDisjoint(q: Queue)
    requires Inv(q)
    ensures Disjoint(FoundIds(q, q.p), FoundIds(q, q.t))
  {
    forall id | id in FoundIds(q, q.p) ensures id !in FoundIds(q, q.t) {
      FoundInStore(q, q.p, id);
      if id in FoundIds(q, q.t) { FoundInStore(q, q.t, id); }
    }
  }

  lemma {:induction false} ApartIsSequential(q: Queue)
    requires Inv(q) && !LoadSkips(q)
    ensures Apart(FoundIds(q, q.p), FoundIds(q, q.t), q.lastMem) <==> Pending(q) != []
  {
    FoundBeyondIff(q);
  }

  /** One store ends with the message RAM ends with, and the other goes on. */
  ghost predicate OneStoreEnds(q: Queue, a: Store, b: Store) {
    && q.lastStored == q.lastMem && q.lastMem in a
    && (forall k :: k in a ==> k <= q.lastMem) && (exists k :: k in b && q.lastMem < k)
  }

  lemma {:induction false} StoreFinds(q: Queue, m: Store)
    requires q.maxInRam < WORD64 && !LoadSkips(q) && Keyed(m) && Covers(m, q.lastStored, q.lastMem)
    ensures FoundIds(q, m) != [] <==>
              (exists k :: k in m && q.lastMem < k) || (q.lastStored == q.lastMem && q.lastMem in m)
    ensures FoundIds(q, m) != [] && EndsAt(FoundIds(q, m), q.lastMem) <==>
              q.lastStored == q.lastMem && q.lastMem in m && forall k :: k in m ==> k <= q.lastMem
  {
    NeedleAtLeastTwo(q);
    StillSwappedIff(m, q.lastStored, q.lastMem, Needle(q));
    ScanSplits(m, q.lastStored, q.lastMem);
    InOrderLength(Above(m, q.lastMem));
  }

  /** A racing load clears the flag with messages still pending exactly when one store holds the message RAM ends
      with and nothing beyond it, while the other holds more. */
  lemma {:induction false} EarlyClearIff(q: Queue)
    requires Inv(q) && !LoadSkips(q)
    ensures MayLeave(q, true) <==> Pending(q) != []
    ensures MayLeave(q, false) <==> Pending(q) == [] || OneStoreEnds(q, q.p, q.t) || OneStoreEnds(q, q.t, q.p)
  {
    FoundDisjoint(q);
    ApartIsSequential(q);
    KeepsIff(FoundIds(q, q.p), FoundIds(q, q.t), q.lastMem);
    ClearsIff(FoundIds(q, q.p), FoundIds(q, q.t), q.lastMem);
    StoreFinds(q, q.p);
    StoreFinds(q, q.t);
  }

  /** Cleared early, the flag leaves the queue broken exactly when the load could not take all that was pending. */
  lemma {:induction false} EarlyClearBreaksIff(q: Queue)
    requires Inv(q) && !LoadSkips(q)
    ensures Inv(Load(q).(swapped := false)) <==> Pending(Load(q)) == []
  {
    LoadKeepsView(q);
    FlagOff(Load(q));
  }

  /** What it leaves pending then, no legal history ever returns (QueueRuns.NeverReturned). */
  lemma {:induction false} EarlyClearStrands(q: Queue, top: nat, out: set<Message>, i: nat)
    requires RunInv(q, top, out) && i < |Pending(Load(q))|
    ensures QueueRuns.OutOfReach(Load(q).(swapped := false), Pending(Load(q))[i].id, top, out)
  {
    LoadStep(q, top, out);
    var q' := Load(q);
    PendingAbove(q', i);
    forall j | 0 <= j < |q'.ram| ensures q'.ram[j].id <= q'.lastMem { assert Seen(q', q'.ram[j]); }
    forall m | m in out ensures m.id <= q'.lastMem { assert Seen(q', m); }
  }

  lemma {:induction false} FlagOff(q: Queue)
    requires Inv(q)
    ensures Inv(q.(swapped := false)) <==> Pending(q) == []
  {
    var q' := q.(swapped := false);
    assert Pending(q') == Pending(q) && View(q') == View(q);
    if Pending(q) == [] { NonePending(q); }
    if forall k :: k in Stored(q') ==> k <= q'.lastMem { NothingAbove(q'); }
  }

  // ---------------------------------------------------------------- a run that ends in a stranded queue

  /** Pushes with rising IDs, pops and loads. */
  ghost predicate Plain(top: nat, ops: seq<Op>)
    decreases |ops|
  {
    ops == [] ||
    match ops[0]
    case OpPush(m) => top < m.id && Plain(m.id, ops[1..])
    case OpPop(_) => Plain(top, ops[1..])
    case OpLoad => Plain(top, ops[1..])
    case _ => false
  }

  lemma {:induction false} PlainLegal(q: Queue, top: nat, out: set<Message>, ops: seq<Op>)
    requires q.maxInRam < WORD64 && Plain(top, ops)
    ensures |Run(q, ops).1| == |ops| && Legal(top, out, ops, Run(q, ops).1)
    decreases |ops|
  {
    RunLength(q, ops);
    if ops != [] {
      var (q1, r) := Step(q, ops[0]);
      var top' := if ops[0].OpPush? then ops[0].m.id else top;
      PlainLegal(q1, top', if ops[0].OpPop? && r.Some? then out + {r.value} else out, ops[1..]);
      assert Run(q, ops).1[1..] == Run(q1, ops[1..]).1;
    }
  }

  /** Three messages fill the RAM of a durable queue with room for two, and five more spill, the second of them
      persistent. */
  function Spill(): seq<Op> {
    [OpPush(QueueRuns.Note(1)), OpPush(QueueRuns.Note(2)), OpPush(QueueRuns.Note(3)), OpPush(QueueRuns.Note(4)),
     OpPush(QueueRuns.Kept(5)), OpPush(QueueRuns.Note(6)), OpPush(QueueRuns.Note(7)), OpPush(QueueRuns.Note(8))]
  }

  function SpilledStore(): Store {
    map[4 := QueueRuns.Note(4), 6 := QueueRuns.Note(6), 7 := QueueRuns.Note(7), 8 := QueueRuns.Note(8)]
  }

  function AfterSpill(): Queue {
    Queue(true, true, 2, [QueueRuns.Note(1), QueueRuns.Note(2), QueueRuns.Note(3)],
          map[5 := QueueRuns.Kept(5)], SpilledStore(), 4, 3, true, 8, Metrics(8, 8, 0))
  }

  lemma {:induction false} SpillRuns()
    ensures Run(Started(true, 2), Spill()).0 == AfterSpill()
  {
    var ops := Spill();
    var q1 := Push(Started(true, 2), QueueRuns.Note(1));
    var q2 := Push(q1, QueueRuns.Note(2));
    var q3 := Push(q2, QueueRuns.Note(3));
    assert q3 == Started(true, 2).(ram := AfterSpill().ram, lastMem := 3, length := 3, metrics := Metrics(3, 3, 0));
    var q4 := Push(q3, QueueRuns.Note(4));
    var q5 := Push(q4, QueueRuns.Kept(5));
    var q6 := Push(q5, QueueRuns.Note(6));
    var q7 := Push(q6, QueueRuns.Note(7));
    var q8 := Push(q7, QueueRuns.Note(8));
    assert q8 == AfterSpill();
    assert Run(q8, ops[8..]).0 == q8;
    assert ops[7..][1..] == ops[8..] && Run(q7, ops[7..]).0 == q8;
    assert ops[6..][1..] == ops[7..] && Run(q6, ops[6..]).0 == q8;
    assert ops[5..][1..] == ops[6..] && Run(q5, ops[5..]).0 == q8;
    assert ops[4..][1..] == ops[5..] && Run(q4, ops[4..]).0 == q8;
    assert ops[3..][1..] == ops[4..] && Run(q3, ops[3..]).0 == q8;
    assert ops[2..][1..] == ops[3..] && Run(q2, ops[2..]).0 == q8;
    assert ops[1..][1..] == ops[2..] && Run(q1, ops[1..]).0 == q8;
  }

  /** The queue when its next load may strand: RAM ended with message 5 and is empty. */
  function Exposed(): Queue {
    AfterSpill().(ram := [], lastMem := 5, lastStored := 5, length := 3)
  }

  function History(): seq<Op> {
    Spill() + (QueueRuns.Pops(3) + ([OpLoad] + QueueRuns.Pops(2)))
  }

  lemma {:induction false} PendingAfterSpill()
    ensures Pending(AfterSpill())
            == [QueueRuns.Note(4), QueueRuns.Kept(5), QueueRuns.Note(6), QueueRuns.Note(7), QueueRuns.Note(8)]
  {
    var m4: Store := map[4 := QueueRuns.Note(4)];
    var m5: Store := m4[5 := QueueRuns.Kept(5)];
    var m6: Store := m5[6 := QueueRuns.Note(6)];
    var m7: Store := m6[7 := QueueRuns.Note(7)];
    QueueRuns.OneInOrder(QueueRuns.Note(4));
    OrderAppend(m4, QueueRuns.Kept(5));
    OrderAppend(m5, QueueRuns.Note(6));
    OrderAppend(m6, QueueRuns.Note(7));
    OrderAppend(m7, QueueRuns.Note(8));
    assert Above(Stored(AfterSpill()), 3) == m7[8 := QueueRuns.Note(8)];
  }

  /** A load of n out of more pending messages. */
  lemma {:induction false} LoadsSome(q: Queue, n: nat)
    requires Inv(q) && !LoadSkips(q) && LoadSize(q) == n && 0 < n < |Pending(q)|
    ensures var taken := Pending(q)[..n];
            var last := taken[n - 1].id;
            Load(q) == q.(ram := q.ram + taken, lastMem := last, lastStored := last, swapped := true)
  {
    LoadAdvances(q);
  }

  function Drained(): Queue {
    AfterSpill().(ram := [], length := 5)
  }

  lemma {:induction false} DrainedLoads()
    ensures Load(Drained()) == Drained().(ram := [QueueRuns.Note(4), QueueRuns.Kept(5)], lastMem := 5, lastStored := 5)
  {
    var q := Drained();
    SpilledOk();
    DrainedSize();
    PendingAfterSpill();
    assert Pending(q) == Pending(AfterSpill());
    assert Pending(q)[..2] == [QueueRuns.Note(4), QueueRuns.Kept(5)];
    LoadsSome(q, 2);
    assert [] + [QueueRuns.Note(4), QueueRuns.Kept(5)] == [QueueRuns.Note(4), QueueRuns.Kept(5)];
  }

  lemma {:induction false} DrainedSize()
    ensures !LoadSkips(Drained()) && LoadSize(Drained()) == 2
  {
  }

  lemma {:induction false} HistoryRuns()
    ensures Run(Started(true, 2), History()).0 == Exposed()
  {
    var q, tail := Started(true, 2), QueueRuns.Pops(3) + ([OpLoad] + QueueRuns.Pops(2));
    SpillRuns();
    TailRuns();
    assert Run(q, Spill() + tail).0 == Run(Run(q, Spill()).0, tail).0 by { QueueRuns.RunConcat(q, Spill(), tail); }
  }

  lemma {:induction false} TailRuns()
    ensures Run(AfterSpill(), QueueRuns.Pops(3) + ([OpLoad] + QueueRuns.Pops(2))).0 == Exposed()
  {
    DrainRuns();
    LoadRuns();
    QueueRuns.RunConcat(AfterSpill(), QueueRuns.Pops(3), [OpLoad] + QueueRuns.Pops(2));
  }

  lemma {:induction false} LoadRuns()
    ensures Run(Drained(), [OpLoad] + QueueRuns.Pops(2)).0 == Exposed()
  {
    ExposeRuns();
    QueueRuns.LoadFirst(Drained(), QueueRuns.Pops(2));
  }

  lemma {:induction false} DrainRuns()
    ensures Run(AfterSpill(), QueueRuns.Pops(3)).0 == Drained()
  {
    QueueRuns.PopsDrop(AfterSpill(), 3);
    assert AfterSpill().ram[3..] == [];
  }

  lemma {:induction false} ExposeRuns()
    ensures Load(Drained()).maxInRam == 2 && Run(Load(Drained()), QueueRuns.Pops(2)).0 == Exposed()
  {
    DrainedLoads();
    QueueRuns.PopsDrop(Load(Drained()), 2);
    assert Load(Drained()).ram[2..] == [];
  }

  lemma {:induction false} HistoryLegal()
    ensures |Run(Started(true, 2), History()).1| == |History()|
    ensures Legal(0, {}, History(), Run(Started(true, 2), History()).1) && Inv(Run(Started(true, 2), History()).0)
  {
    HistoryPlain();
    PlainLegal(Started(true, 2), 0, {}, History());
    StartedRuns(true, 2);
    RunRefinesDeque(Started(true, 2), 0, {}, History());
  }

  lemma {:induction false} SpilledOk()
    ensures Inv(Drained())
  {
    PendingAfterSpill();
    var q := Drained();
    assert Pending(q) == Pending(AfterSpill());
  }

  lemma {:induction false} HistoryPlain()
    ensures Plain(0, History())
  {
    var tail := QueueRuns.Pops(3) + ([OpLoad] + QueueRuns.Pops(2));
    var ops := History();
    QuietPlain(8);
    assert ops[8..] == tail;
    assert ops[7..][1..] == ops[8..] && Plain(7, ops[7..]);
    assert ops[6..][1..] == ops[7..] && Plain(6, ops[6..]);
    assert ops[5..][1..] == ops[6..] && Plain(5, ops[5..]);
    assert ops[4..][1..] == ops[5..] && Plain(4, ops[4..]);
    assert ops[3..][1..] == ops[4..] && Plain(3, ops[3..]);
    assert ops[2..][1..] == ops[3..] && Plain(2, ops[2..]);
    assert ops[1..][1..] == ops[2..] && Plain(1, ops[1..]);
  }

  lemma {:induction false} QuietPlain(top: nat)
    ensures Plain(top, QueueRuns.Pops(3) + ([OpLoad] + QueueRuns.Pops(2)))
  {
    var pop, load := OpPop([]), OpLoad;
    assert QueueRuns.Pops(1) == [pop] + QueueRuns.Pops(0) && QueueRuns.Pops(2) == [pop] + QueueRuns.Pops(1);
    assert QueueRuns.Pops(3) == [pop] + QueueRuns.Pops(2);
    var ops := QueueRuns.Pops(3) + ([OpLoad] + QueueRuns.Pops(2));
    assert ops == [pop, pop, pop, load, pop, pop];
    assert ops[5..][1..] == [] && Plain(top, ops[5..]);
    assert ops[4..][1..] == ops[5..] && Plain(top, ops[4..]);
    assert ops[3..][1..] == ops[4..] && Plain(top, ops[3..]);
    assert ops[2..][1..] == ops[3..] && Plain(top, ops[2..]);
    assert ops[1..][1..] == ops[2..] && Plain(top, ops[1..]);
  }

  /** A legal run of a durable queue with room for two reaches a state whose racing load takes message 6, clears the
      flag, and leaves messages 7 and 8 in the store out of reach of every later load. */
  lemma {:induction false} RaceStrands()
    ensures Run(Started(true, 2), History()).0 == Exposed()
    ensures |Run(Started(true, 2), History()).1| == |History()|
    ensures Legal(0, {}, History(), Run(Started(true, 2), History()).1)
    ensures MayLeave(Exposed(), false) && |Pending(Load(Exposed()))| == 2 && !Inv(Load(Exposed()).(swapped := false))
    ensures var q, top := Load(Exposed()), Recovery.TopAfter(0, History());
            var out := Recovery.OutAfter({}, History(), Run(Started(true, 2), History()).1);
            forall i :: 0 <= i < 2 ==> QueueRuns.OutOfReach(q.(swapped := false), Pending(q)[i].id, top, out)
  {
    HistoryLegal();
    HistoryRuns();
    RaceClears();
    ExposedRuns();
    var q, top := Load(Exposed()), Recovery.TopAfter(0, History());
    var out := Recovery.OutAfter({}, History(), Run(Started(true, 2), History()).1);
    forall i | 0 <= i < 2 ensures QueueRuns.OutOfReach(q.(swapped := false), Pending(q)[i].id, top, out) {
      EarlyClearStrands(Exposed(), top, out, i);
    }
  }

  lemma {:induction false} RaceClears()
    requires Inv(Exposed())
    ensures MayLeave(Exposed(), false) && |Pending(Load(Exposed()))| == 2 && !Inv(Load(Exposed()).(swapped := false))
  {
    var q := Exposed();
    ExposedSize();
    ExposedPending();
    EarlyClearIff(q);
    LoadAdvances(q);
    AdvancePending(q, Moved(q), true);
    EarlyClearBreaksIff(q);
  }

  lemma {:induction false} ExposedRuns()
    ensures |Run(Started(true, 2), History()).1| == |History()|
    ensures RunInv(Exposed(), Recovery.TopAfter(0, History()),
                   Recovery.OutAfter({}, History(), Run(Started(true, 2), History()).1))
  {
    HistoryLegal();
    HistoryRuns();
    Recovery.StartedCrashInv(true, 2);
    Recovery.RunKeepsCrashInv(Started(true, 2), 0, {}, History());
  }

  lemma {:induction false} ExposedSize()
    ensures !LoadSkips(Exposed()) && LoadSize(Exposed()) == 1 && OneStoreEnds(Exposed(), Exposed().p, Exposed().t)
  {
    assert 6 in Exposed().t;
  }

  lemma {:induction false} ExposedPending()
    ensures |Pending(Exposed())| == 3
  {
    var q := Drained();
    SpilledOk();
    PendingAfterSpill();
    assert Pending(q) == Pending(AfterSpill());
    AdvancePending(q, 2, true);
    assert Pending(q)[..2][1] == QueueRuns.Kept(5);
    assert Pending(Exposed()) == Pending(Advance(q, 2, true));
  }
}
