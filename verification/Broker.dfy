/**
 Conservation across the whole broker: many channels over many connections deliver
 from and settle to the same queues while publishers push. Multiple acks and nacks
 appear as their single settlements, so that other channels may act in between.
 */
module Brokers {
  import opened Options
  import opened Messages
  import opened BackedQueue
  import opened Sessions
  import opened Words
  import Qos
  import Recovery

  datatype Broker = Broker(
    rabbit: bool,
    queues: map<string, Queue>,
    conns: map<nat, Qos.Window>,
    connOf: map<nat, nat>,
    chans: map<nat, Chan>)

  datatype Op = PushTo(queue: string, m: Message) | LoadOf(queue: string) | On(chan: nat, action: Action)

  predicate Connected(b: Broker, c: nat) {
    c in b.chans && c in b.connOf && b.connOf[c] in b.conns
  }

  function SessionOf(b: Broker, c: nat): Session
    requires Connected(b, c)
  {
    Session(b.rabbit, b.queues, b.conns[b.connOf[c]], b.chans[c])
  }

  function Update(b: Broker, c: nat, s: Session): Broker
    requires Connected(b, c)
  {
    b.(queues := s.queues, conns := b.conns[b.connOf[c] := s.conn], chans := b.chans[c := s.chan])
  }

  function Step(b: Broker, op: Op): Broker
    requires forall n :: n in b.queues ==> b.queues[n].maxInRam < WORD64
  {
    match op
    case PushTo(n, m) => if n in b.queues then b.(queues := b.queues[n := Push(b.queues[n], m)]) else b
    case LoadOf(n) => if n in b.queues then b.(queues := b.queues[n := BackedQueue.Load(b.queues[n])]) else b
    case On(c, a) =>
      if Connected(b, c) then Update(b, c, Act(SessionOf(b, c), a)) else b
  }

  // ---------------------------------------------------------------- what one action moves

  /** The message an action moves, if any. */
  datatype Effect =
    | Nothing
    | Took(queue: string, tag: nat, u: Unacked)   // from the queue to the channel
    | Gave(queue: string, m: Message)             // from the queue to a consumer that does not acknowledge
    | Settled(tag: nat, u: Unacked, requeue: bool) // out of the channel

  function Ready(q: Queue, d: int): Metrics {
    q.metrics.(ready := q.metrics.ready + d)
  }

  function Popped(q: Queue): Queue {
    PopQos(q, []).0
  }

  /** The queue after its head went to a channel that has to acknowledge it. */
  function Taken(q: Queue): Queue {
    Popped(q).(metrics := Ready(q, -1).(unacked := q.metrics.unacked + 1))
  }

  /** The queue after its head went out for good. */
  function Given(q: Queue): Queue {
    Popped(q).(metrics := Ready(q, -1).(total := q.metrics.total - 1))
  }

  /** How a session differs after an effect, in its queues and its unacknowledged messages. */
  ghost predicate Shows(s: Session, s': Session, e: Effect) {
    match e
    case Nothing =>
      && s'.queues == s.queues
      && s'.chan.ackStore == s.chan.ackStore && s'.chan.deliveryTag == s.chan.deliveryTag
    case Took(n, tag, u) =>
      && n in s.queues && s.queues[n].active && s.queues[n].ram != [] && u.msg == s.queues[n].ram[0] && u.queue == n
      && tag == s.chan.deliveryTag + 1 == s'.chan.deliveryTag
      && s'.chan.ackStore == s.chan.ackStore[tag := u]
      && s'.queues == s.queues[n := Taken(s.queues[n])]
    case Gave(n, m) =>
      && n in s.queues && s.queues[n].active && s.queues[n].ram != [] && m == s.queues[n].ram[0]
      && s'.chan.ackStore == s.chan.ackStore && s'.chan.deliveryTag >= s.chan.deliveryTag
      && s'.queues == s.queues[n := Given(s.queues[n])]
    case Settled(tag, u, requeue) =>
      && tag in s.chan.ackStore && u == s.chan.ackStore[tag]
      && s'.chan.ackStore == s.chan.ackStore - {tag} && s'.chan.deliveryTag == s.chan.deliveryTag
      && s'.queues == if u.queue !in s.queues then s.queues
                      else s.queues[u.queue := if requeue then Requeue(s.queues[u.queue], u.msg)
                                               else AckMsg(s.queues[u.queue], u.msg)]
  }

  function EffectOfFetch(s: Session, queue: string, noAck: bool, second: Qos.Window, cTag: string): Effect
    requires queue in s.queues
  {
    var r := PopQos(s.queues[queue], if noAck then [] else [s.chan.qos, second]).2;
    if r == None then Nothing
    else if noAck then Gave(queue, r.value)
    else Took(queue, s.chan.deliveryTag + 1, Unacked(cTag, r.value, queue))
  }

  lemma FetchShows(s: Session, queue: string, noAck: bool, second: Qos.Window, cTag: string)
    requires queue in s.queues
    ensures Shows(s, Fetch(s, queue, noAck, second, cTag).0, EffectOfFetch(s, queue, noAck, second, cTag))
  {
    var q := s.queues[queue];
    assert s.queues[queue := q] == s.queues;
    if q.active && q.ram != [] {
      assert Qos.Charge([], q.ram[0].bodySize) == ([], true);
      assert Popped(q) == q.(ram := q.ram[1..], length := q.length - 1);
    }
  }

  function EffectOf(s: Session, a: Action): Effect {
    match a
    case DeliverTo(cTag) =>
      if cTag !in s.chan.consumers then Nothing else
      var c := s.chan.consumers[cTag];
      if c.stopped || c.queue !in s.queues then Nothing
      else EffectOfFetch(s, c.queue, c.noAck, if s.rabbit then c.own else s.conn, cTag)
    case GetFrom(queue, noAck) =>
      if queue !in s.queues || !s.queues[queue].active then Nothing
      else EffectOfFetch(s, queue, noAck, s.conn, "")
    case Settle(tag, requeue) =>
      if tag in s.chan.ackStore then Settled(tag, s.chan.ackStore[tag], requeue) else Nothing
    case Consumers(_) => Nothing
  }

  lemma ActShows(s: Session, a: Action)
    ensures Shows(s, Act(s, a), EffectOf(s, a))
  {
    match a
    case DeliverTo(cTag) =>
      if cTag in s.chan.consumers {
        var c := s.chan.consumers[cTag];
        if !c.stopped && c.queue in s.queues {
          FetchShows(s, c.queue, c.noAck, if s.rabbit then c.own else s.conn, cTag);
        }
      }
    case GetFrom(queue, noAck) =>
      if queue in s.queues && s.queues[queue].active { FetchShows(s, queue, noAck, s.conn, ""); }
    case Settle(_, _) =>
    case Consumers(_) =>
  }

  // ---------------------------------------------------------------- the account of one queue

  /** Unacknowledged messages of one queue, by channel and delivery tag. */
  type Holdings = map<(nat, nat), Message>

  /** What has happened to a queue: the largest ID pushed, every message pushed, and those that are done. */
  datatype Ledger = Ledger(top: nat, pushed: set<Message>, settled: set<Message>)

  ghost function Elems(view: seq<Message>): set<Message> {
    set m | m in view
  }

  /** The counters kept by queue.go, consumer.go and basicMethods.go agree with what is really there. */
  ghost predicate Counted(q: Queue, h: Holdings) {
    && q.metrics.total == q.metrics.ready + q.metrics.unacked
    && q.metrics.ready == q.length == |View(q)|
    && q.metrics.unacked == |h|
  }

  /** No two holders share a message. */
  ghost predicate Apart(h: Holdings) {
    forall e, e' :: e in h && e' in h && h[e].id == h[e'].id ==> e == e'
  }

  /** Messages of the queue that are still somewhere. */
  ghost function Live(view: seq<Message>, out: set<Message>): set<Message> {
    Elems(view) + out
  }

  ghost predicate Finished(l: Ledger, live: set<Message>) {
    forall m :: m in l.settled ==> m.id <= l.top && forall x :: x in live ==> x.id != m.id
  }

  /** Every message ever pushed is queued, held, or done; and no two of these at once. */
  ghost predicate Balanced(view: seq<Message>, out: set<Message>, l: Ledger) {
    && l.pushed == Live(view, out) + l.settled
    && Recovery.Unique(view, out)
    && Finished(l, Live(view, out))
  }

  ghost predicate Account(q: Queue, h: Holdings, l: Ledger) {
    RunInv(q, l.top, h.Values) && Counted(q, h) && Apart(h) && Balanced(View(q), h.Values, l)
  }

  lemma {:induction false} ElemsSize(view: seq<Message>)
    requires forall i, j :: 0 <= i < j < |view| ==> view[i].id != view[j].id
    ensures |Elems(view)| == |view|
  {
    if view != [] {
      var rest := view[..|view| - 1];
      ElemsSize(rest);
      assert view == rest + [view[|view| - 1]];
      assert Elems(view) == Elems(rest) + {view[|view| - 1]};
    } else {
      assert Elems(view) == {};
    }
  }

  lemma {:induction false} HoldingsSize(h: Holdings)
    requires Apart(h)
    ensures |h.Values| == |h|
    decreases |h|
  {
    if h != map[] {
      var e :| e in h;
      var rest := h - {e};
      HoldingsSize(rest);
      assert h.Keys == rest.Keys + {e};
      ValuesWithout(h, e);
      assert h.Values == rest.Values + {h[e]};
    } else {
      assert h.Values == {};
    }
  }

  lemma ValuesWithout(h: Holdings, e: (nat, nat))
    requires e in h && Apart(h)
    ensures (h - {e}).Values == h.Values - {h[e]}
    ensures |h - {e}| == |h| - 1 && Apart(h - {e})
  {
    assert h.Keys == (h - {e}).Keys + {e};
    var rest := h - {e};
    forall m ensures m in rest.Values <==> m in h.Values && m != h[e] {
      if m in h.Values && m != h[e] {
        var a :| a in h && h[a] == m;
        assert a in rest && rest[a] == m;
      }
      if m in rest.Values {
        var a :| a in rest && rest[a] == m;
        assert a in h && h[a] == m;
      }
    }
  }

  lemma ValuesWith(h: Holdings, e: (nat, nat), m: Message)
    requires e !in h
    ensures h[e := m].Values == h.Values + {m} && |h[e := m]| == |h| + 1
  {
    var more := h[e := m];
    forall x ensures x in more.Values <==> x in h.Values || x == m {
      if x in h.Values {
        var a :| a in h && h[a] == x;
        assert a in more && more[a] == x;
      }
      assert e in more && more[e] == m;
    }
    assert more.Keys == h.Keys + {e};
  }

  /** Nothing is lost and nothing is counted twice. */
  lemma AccountAddsUp(q: Queue, h: Holdings, l: Ledger)
    requires Account(q, h, l)
    ensures |l.pushed| == |View(q)| + |h| + |l.settled|
  {
    var view := View(q);
    ElemsSize(view);
    HoldingsSize(h);
    assert Elems(view) !! h.Values;
    assert Live(view, h.Values) !! l.settled;
  }

  lemma BalancedPush(view: seq<Message>, out: set<Message>, l: Ledger, m: Message)
    requires Balanced(view, out, l) && l.top < m.id
    requires forall i :: 0 <= i < |view| ==> view[i].id <= l.top
    requires forall x :: x in out ==> x.id <= l.top
    ensures Balanced(view + [m], out, Ledger(m.id, l.pushed + {m}, l.settled))
  {
    assert Live(view + [m], out) == Live(view, out) + {m};
  }

  lemma HeadAndTail(view: seq<Message>)
    requires view != []
    ensures Elems(view) == {view[0]} + Elems(view[1..])
  {
    assert view == [view[0]] + view[1..];
  }

  lemma BalancedTook(view: seq<Message>, out: set<Message>, l: Ledger)
    requires Balanced(view, out, l) && view != []
    ensures Balanced(view[1..], out + {view[0]}, l)
  {
    HeadAndTail(view);
    Recovery.UniquePop(view, out);
    assert Live(view[1..], out + {view[0]}) == Live(view, out);
  }

  lemma HeadAlone(view: seq<Message>, out: set<Message>)
    requires Recovery.Unique(view, out) && view != []
    ensures Recovery.Unique(view[1..], out)
    ensures Live(view, out) == Live(view[1..], out) + {view[0]}
    ensures forall x :: x in Live(view[1..], out) ==> x.id != view[0].id
  {
    HeadAndTail(view);
    assert forall i :: 0 <= i < |view[1..]| ==> view[1..][i] == view[i + 1];
  }

  lemma BalancedGave(view: seq<Message>, out: set<Message>, l: Ledger)
    requires Balanced(view, out, l) && view != [] && view[0].id <= l.top
    ensures Balanced(view[1..], out, l.(settled := l.settled + {view[0]}))
  {
    HeadAlone(view, out);
  }

  lemma BalancedBack(view: seq<Message>, out: set<Message>, l: Ledger, m: Message)
    requires Balanced(view, out, l) && m in out
    ensures Balanced([m] + view, out - {m}, l)
  {
    Recovery.UniquePrepend(view, out, m);
    assert Elems([m] + view) == {m} + Elems(view);
    assert Live([m] + view, out - {m}) == Live(view, out);
  }

  lemma OutAlone(view: seq<Message>, out: set<Message>, m: Message)
    requires Recovery.Unique(view, out) && m in out
    ensures Recovery.Unique(view, out - {m})
    ensures Live(view, out) == Live(view, out - {m}) + {m}
    ensures forall x :: x in Live(view, out - {m}) ==> x.id != m.id
  {
  }

  lemma BalancedDone(view: seq<Message>, out: set<Message>, l: Ledger, m: Message)
    requires Balanced(view, out, l) && m in out && m.id <= l.top
    ensures Balanced(view, out - {m}, l.(settled := l.settled + {m}))
  {
    OutAlone(view, out, m);
  }

  lemma AccountPush(q: Queue, h: Holdings, l: Ledger, m: Message)
    requires Account(q, h, l) && l.top < m.id
    ensures Account(Push(q, m), h, Ledger(m.id, l.pushed + {m}, l.settled))
  {
    PushStep(q, l.top, h.Values, m);
    Recovery.ViewBounded(q, l.top, h.Values);
    BalancedPush(View(q), h.Values, l, m);
  }

  lemma AccountLoad(q: Queue, h: Holdings, l: Ledger)
    requires Account(q, h, l)
    ensures Account(BackedQueue.Load(q), h, l)
  {
    LoadStep(q, l.top, h.Values);
  }

  lemma PoppedStep(q: Queue, q': Queue, top: nat, out: set<Message>)
    requires RunInv(q, top, out) && q.ram != [] && q' == Popped(q).(metrics := q'.metrics)
    ensures View(q) != [] && View(q)[0] == q.ram[0] && View(q') == View(q)[1..]
    ensures RunInv(q', top, out + {q.ram[0]}) && q'.length == q.length - 1
  {
    assert Qos.Charge([], q.ram[0].bodySize) == ([], true);
    PopStep(q, top, out, []);
    MetricsInvisible(Popped(q), q'.metrics);
  }

  lemma ApartWith(view: seq<Message>, h: Holdings, e: (nat, nat))
    requires Apart(h) && Recovery.Unique(view, h.Values) && view != [] && e !in h
    ensures Apart(h[e := view[0]])
  {
    assert forall a :: a in h ==> h[a] in h.Values;
  }

  lemma AccountTook(q: Queue, h: Holdings, l: Ledger, e: (nat, nat))
    requires Account(q, h, l) && q.ram != [] && e !in h
    ensures Account(Taken(q), h[e := q.ram[0]], l)
  {
    PoppedStep(q, Taken(q), l.top, h.Values);
    ValuesWith(h, e, q.ram[0]);
    ApartWith(View(q), h, e);
    BalancedTook(View(q), h.Values, l);
  }

  lemma AccountGave(q: Queue, h: Holdings, l: Ledger)
    requires Account(q, h, l) && q.ram != []
    ensures Account(Given(q), h, l.(settled := l.settled + {q.ram[0]}))
  {
    PoppedStep(q, Given(q), l.top, h.Values);
    Recovery.ViewBounded(q, l.top, h.Values);
    BalancedGave(View(q), h.Values, l);
  }

  lemma BackStep(q: Queue, h: Holdings, top: nat, e: (nat, nat))
    requires RunInv(q, top, h.Values) && Counted(q, h) && Apart(h) && e in h
    ensures RunInv(Requeue(q, h[e]), top, (h - {e}).Values) && Counted(Requeue(q, h[e]), h - {e})
    ensures h[e] in h.Values && (h - {e}).Values == h.Values - {h[e]} && Apart(h - {e})
    ensures View(Requeue(q, h[e])) == [h[e]] + View(q)
  {
    assert h[e] in h.Values;
    RequeueStep(q, top, h.Values, h[e]);
    ValuesWithout(h, e);
  }

  lemma DoneStep(q: Queue, h: Holdings, top: nat, e: (nat, nat))
    requires RunInv(q, top, h.Values) && Counted(q, h) && Apart(h) && e in h
    ensures RunInv(AckMsg(q, h[e]), top, (h - {e}).Values) && Counted(AckMsg(q, h[e]), h - {e})
    ensures h[e] in h.Values && (h - {e}).Values == h.Values - {h[e]} && Apart(h - {e})
    ensures View(AckMsg(q, h[e])) == View(q) && h[e].id <= top
  {
    assert h[e] in h.Values;
    AckStep(q, top, h.Values, h[e]);
    ValuesWithout(h, e);
    Recovery.ViewBounded(q, top, h.Values);
  }

  lemma AccountBack(q: Queue, h: Holdings, l: Ledger, e: (nat, nat))
    requires Account(q, h, l) && e in h
    ensures Account(Requeue(q, h[e]), h - {e}, l)
  {
    BackStep(q, h, l.top, e);
    BalancedBack(View(q), h.Values, l, h[e]);
  }

  lemma AccountDone(q: Queue, h: Holdings, l: Ledger, e: (nat, nat))
    requires Account(q, h, l) && e in h
    ensures Account(AckMsg(q, h[e]), h - {e}, l.(settled := l.settled + {h[e]}))
  {
    DoneStep(q, h, l.top, e);
    BalancedDone(View(q), h.Values, l, h[e]);
  }

  // ---------------------------------------------------------------- all queues and all channels

  /** The unacknowledged message under a channel and a delivery tag. */
  function At(chans: map<nat, Chan>, e: (nat, nat)): Option<Unacked> {
    if e.0 in chans && e.1 in chans[e.0].ackStore then Some(chans[e.0].ackStore[e.1]) else None
  }

  /** h is exactly what the ackStores of all channels hold of queue n. */
  ghost predicate Matches(chans: map<nat, Chan>, n: string, h: Holdings) {
    && (forall e :: e in h ==> At(chans, e).Some?)
    && (forall e :: At(chans, e).Some? ==>
          if At(chans, e).value.queue == n then e in h && h[e] == At(chans, e).value.msg else e !in h)
  }

  lemma MatchesSame(chans: map<nat, Chan>, c: nat, chan: Chan, n: string, h: Holdings)
    requires Matches(chans, n, h) && c in chans && chan.ackStore == chans[c].ackStore
    ensures Matches(chans[c := chan], n, h)
  {
    assert forall e :: At(chans[c := chan], e) == At(chans, e);
  }

  lemma MatchesTook(chans: map<nat, Chan>, c: nat, chan: Chan, tag: nat, u: Unacked, n: string, h: Holdings)
    requires Matches(chans, n, h)
    requires c in chans && tag !in chans[c].ackStore && chan.ackStore == chans[c].ackStore[tag := u]
    ensures (c, tag) !in h
    ensures Matches(chans[c := chan], n, if u.queue == n then h[(c, tag) := u.msg] else h)
  {
    assert At(chans, (c, tag)) == None;
    assert forall e :: At(chans[c := chan], e) == if e == (c, tag) then Some(u) else At(chans, e);
  }

  lemma MatchesSettled(chans: map<nat, Chan>, c: nat, chan: Chan, tag: nat, n: string, h: Holdings)
    requires Matches(chans, n, h)
    requires c in chans && tag in chans[c].ackStore && chan.ackStore == chans[c].ackStore - {tag}
    ensures chans[c].ackStore[tag].queue == n ==> (c, tag) in h && h[(c, tag)] == chans[c].ackStore[tag].msg
    ensures Matches(chans[c := chan], n, if chans[c].ackStore[tag].queue == n then h - {(c, tag)} else h)
  {
    assert At(chans, (c, tag)) == Some(chans[c].ackStore[tag]);
    assert forall e :: At(chans[c := chan], e) == if e == (c, tag) then None else At(chans, e);
  }

  /** The books of one queue: who holds what, and its history. */
  datatype Book = Book(h: Holdings, l: Ledger)

  type Books = map<string, Book>

  /** An invariant of one queue and its books. */
  type Check = (Queue, Book) -> bool

  function Pushed(k: Book, m: Message): Book {
    k.(l := Ledger(m.id, k.l.pushed + {m}, k.l.settled))
  }

  function Finish(k: Book, m: Message): Book {
    k.(l := k.l.(settled := k.l.settled + {m}))
  }

  function Release(k: Book, e: (nat, nat)): Book {
    k.(h := k.h - {e})
  }

  /** Each of the six things that can happen to a queue keeps the invariant. */
  ghost predicate Preserved(ok: Check) {
    && (forall q, k :: ok(q, k) ==> q.maxInRam < WORD64 && ok(BackedQueue.Load(q), k))
    && (forall q, k, m: Message :: ok(q, k) && k.l.top < m.id ==> ok(Push(q, m), Pushed(k, m)))
    && (forall q, k, e :: ok(q, k) && q.ram != [] && e !in k.h ==> ok(Taken(q), k.(h := k.h[e := q.ram[0]])))
    && (forall q, k :: ok(q, k) && q.ram != [] ==> ok(Given(q), Finish(k, q.ram[0])))
    && (forall q, k, e :: ok(q, k) && e in k.h ==> ok(Requeue(q, k.h[e]), Release(k, e)))
    && (forall q, k, e :: ok(q, k) && e in k.h ==> ok(AckMsg(q, k.h[e]), Finish(Release(k, e), k.h[e])))
  }

  ghost predicate BrokerOk(b: Broker, bs: Books, ok: Check) {
    && bs.Keys == b.queues.Keys
    && (forall n :: n in b.queues ==> ok(b.queues[n], bs[n]) && Matches(b.chans, n, bs[n].h))
    && (forall c, t :: c in b.chans && t in b.chans[c].ackStore ==> t <= b.chans[c].deliveryTag)
  }

  /** A queue's books after channel c acted. */
  function Entered(n: string, k: Book, c: nat, e: Effect): Book {
    match e
    case Nothing => k
    case Took(q, tag, u) => if q == n then k.(h := k.h[(c, tag) := u.msg]) else k
    case Gave(q, m) => if q == n then Finish(k, m) else k
    case Settled(tag, u, requeue) =>
      if u.queue != n then k
      else if requeue then Release(k, (c, tag))
      else Finish(Release(k, (c, tag)), u.msg)
  }

  /** Whatever a channel does, every queue's books stay right. */
  lemma EffectKeeps(s: Session, s': Session, e: Effect, chans: map<nat, Chan>, c: nat, n: string, k: Book, ok: Check)
    requires Preserved(ok)
    requires Shows(s, s', e) && c in chans && chans[c] == s.chan && n in s.queues
    requires forall t :: t in s.chan.ackStore ==> t <= s.chan.deliveryTag
    requires ok(s.queues[n], k) && Matches(chans, n, k.h)
    ensures n in s'.queues && Matches(chans[c := s'.chan], n, Entered(n, k, c, e).h)
    ensures ok(s'.queues[n], Entered(n, k, c, e))
  {
    match e
    case Nothing => MatchesSame(chans, c, s'.chan, n, k.h);
    case Took(_, tag, u) => MatchesTook(chans, c, s'.chan, tag, u, n, k.h);
    case Gave(_, _) => MatchesSame(chans, c, s'.chan, n, k.h);
    case Settled(tag, _, _) => MatchesSettled(chans, c, s'.chan, tag, n, k.h);
  }

  /** The books after an operation: a push opens an entry; what is acknowledged, dropped, or delivered without
      acknowledgement closes one. */
  ghost function BooksAfter(b: Broker, bs: Books, op: Op): Books {
    match op
    case PushTo(n, m) => if n in bs then bs[n := Pushed(bs[n], m)] else bs
    case LoadOf(_) => bs
    case On(c, a) =>
      if Connected(b, c) then AllEntered(bs, c, EffectOf(SessionOf(b, c), a)) else bs
  }

  /** Publishers number messages upwards; nothing else is asked of anyone. */
  ghost predicate Allowed(bs: Books, op: Op) {
    op.PushTo? && op.queue in bs ==> bs[op.queue].l.top < op.m.id
  }

  ghost predicate Sized(b: Broker) {
    forall n :: n in b.queues ==> b.queues[n].maxInRam < WORD64
  }

  ghost predicate AllKept(b: Broker, c: nat, s': Session, bs': Books, ok: Check) {
    forall n :: n in b.queues ==>
      n in s'.queues && n in bs' && ok(s'.queues[n], bs'[n]) && Matches(b.chans[c := s'.chan], n, bs'[n].h)
  }

  lemma Assemble(b: Broker, bs: Books, c: nat, s': Session, bs': Books, ok: Check)
    requires BrokerOk(b, bs, ok) && Connected(b, c)
    requires bs'.Keys == s'.queues.Keys == b.queues.Keys
    requires AllKept(b, c, s', bs', ok)
    requires forall t :: t in s'.chan.ackStore ==> t <= s'.chan.deliveryTag
    ensures BrokerOk(Update(b, c, s'), bs', ok)
  {
  }

  ghost function AllEntered(bs: Books, c: nat, e: Effect): Books {
    map n | n in bs :: Entered(n, bs[n], c, e)
  }

  lemma AllQueuesKept(b: Broker, bs: Books, c: nat, s': Session, e: Effect, ok: Check)
    requires Preserved(ok) && BrokerOk(b, bs, ok) && Connected(b, c) && Shows(SessionOf(b, c), s', e)
    ensures AllKept(b, c, s', AllEntered(bs, c, e), ok)
  {
    forall n | n in b.queues
      ensures n in s'.queues && ok(s'.queues[n], Entered(n, bs[n], c, e))
      ensures Matches(b.chans[c := s'.chan], n, Entered(n, bs[n], c, e).h)
    {
      EffectKeeps(SessionOf(b, c), s', e, b.chans, c, n, bs[n], ok);
    }
  }

  lemma ShownKeepsOk(b: Broker, bs: Books, c: nat, s': Session, e: Effect, ok: Check)
    requires Preserved(ok) && BrokerOk(b, bs, ok) && Connected(b, c) && Shows(SessionOf(b, c), s', e)
    ensures BrokerOk(Update(b, c, s'), AllEntered(bs, c, e), ok)
  {
    KeysKept(SessionOf(b, c), s', e);
    AllQueuesKept(b, bs, c, s', e, ok);
    Assemble(b, bs, c, s', AllEntered(bs, c, e), ok);
  }

  lemma ActionKeepsOk(b: Broker, bs: Books, c: nat, a: Action, ok: Check)
    requires Preserved(ok) && BrokerOk(b, bs, ok) && Sized(b) && Connected(b, c)
    ensures BrokerOk(Step(b, On(c, a)), BooksAfter(b, bs, On(c, a)), ok)
  {
    ActShows(SessionOf(b, c), a);
    ShownKeepsOk(b, bs, c, Act(SessionOf(b, c), a), EffectOf(SessionOf(b, c), a), ok);
  }

  lemma KeysKept(s: Session, s': Session, e: Effect)
    requires Shows(s, s', e) && forall t :: t in s.chan.ackStore ==> t <= s.chan.deliveryTag
    ensures s'.queues.Keys == s.queues.Keys
    ensures forall t :: t in s'.chan.ackStore ==> t <= s'.chan.deliveryTag
  {
  }

  lemma StepKeepsOk(b: Broker, bs: Books, op: Op, ok: Check)
    requires Preserved(ok) && BrokerOk(b, bs, ok) && Sized(b) && Allowed(bs, op)
    ensures BrokerOk(Step(b, op), BooksAfter(b, bs, op), ok)
  {
    match op
    case PushTo(n, m) =>
    case LoadOf(n) =>
    case On(c, a) => if Connected(b, c) { ActionKeepsOk(b, bs, c, a, ok); }
  }

  // ---------------------------------------------------------------- whole runs

  function Run(b: Broker, ops: seq<Op>): Broker
    requires Sized(b)
    decreases |ops|
  {
    if ops == [] then b else
    StepKeepsSized(b, ops[0]);
    Run(Step(b, ops[0]), ops[1..])
  }

  lemma StepKeepsSized(b: Broker, op: Op)
    requires Sized(b)
    ensures Sized(Step(b, op))
  {
    match op
    case PushTo(_, _) =>
    case LoadOf(_) =>
    case On(c, a) => if Connected(b, c) { ActShows(SessionOf(b, c), a); }
  }

  ghost function FinalBooks(b: Broker, bs: Books, ops: seq<Op>): Books
    requires Sized(b)
    decreases |ops|
  {
    if ops == [] then bs else
    StepKeepsSized(b, ops[0]);
    FinalBooks(Step(b, ops[0]), BooksAfter(b, bs, ops[0]), ops[1..])
  }

  ghost predicate AllAllowed(b: Broker, bs: Books, ops: seq<Op>)
    requires Sized(b)
    decreases |ops|
  {
    ops == [] ||
    (Allowed(bs, ops[0])
     && (StepKeepsSized(b, ops[0]); AllAllowed(Step(b, ops[0]), BooksAfter(b, bs, ops[0]), ops[1..])))
  }

  lemma {:induction false} RunKeepsOk(b: Broker, bs: Books, ops: seq<Op>, ok: Check)
    requires Preserved(ok) && BrokerOk(b, bs, ok) && Sized(b) && AllAllowed(b, bs, ops)
    ensures BrokerOk(Run(b, ops), FinalBooks(b, bs, ops), ok)
    decreases |ops|
  {
    if ops != [] {
      StepKeepsOk(b, bs, ops[0], ok);
      StepKeepsSized(b, ops[0]);
      RunKeepsOk(Step(b, ops[0]), BooksAfter(b, bs, ops[0]), ops[1..], ok);
    }
  }

  lemma AccountPreserved()
    ensures Preserved((q, k: Book) => Account(q, k.h, k.l))
  {
    var ok: Check := (q, k: Book) => Account(q, k.h, k.l);
    forall q, k | ok(q, k) ensures q.maxInRam < WORD64 && ok(BackedQueue.Load(q), k) { AccountLoad(q, k.h, k.l); }
    forall q, k, m: Message | ok(q, k) && k.l.top < m.id ensures ok(Push(q, m), Pushed(k, m)) {
      AccountPush(q, k.h, k.l, m);
    }
    forall q, k, e | ok(q, k) && q.ram != [] && e !in k.h ensures ok(Taken(q), k.(h := k.h[e := q.ram[0]])) {
      AccountTook(q, k.h, k.l, e);
    }
    forall q, k | ok(q, k) && q.ram != [] ensures ok(Given(q), Finish(k, q.ram[0])) { AccountGave(q, k.h, k.l); }
    forall q, k, e | ok(q, k) && e in k.h ensures ok(Requeue(q, k.h[e]), Release(k, e)) { AccountBack(q, k.h, k.l, e); }
    forall q, k, e | ok(q, k) && e in k.h ensures ok(AckMsg(q, k.h[e]), Finish(Release(k, e), k.h[e])) {
      AccountDone(q, k.h, k.l, e);
    }
  }

  ghost predicate BrokerInv(b: Broker, bs: Books) {
    BrokerOk(b, bs, (q, k: Book) => Account(q, k.h, k.l))
  }

  lemma FreshAccount(durable: bool, maxInRam: nat)
    requires maxInRam < WORD64
    ensures Account(Started(durable, maxInRam), map[], Ledger(0, {}, {}))
  {
    StartedRuns(durable, maxInRam);
    var h: Holdings := map[];
    assert h.Values == {} && Elems([]) == {};
  }

  /** A broker whose queues are new and whose channels hold nothing starts with clean books. */
  lemma FreshBroker(b: Broker, bs: Books)
    requires bs.Keys == b.queues.Keys && Sized(b)
    requires forall n :: n in b.queues ==> b.queues[n] == Started(b.queues[n].durable, b.queues[n].maxInRam)
    requires forall n :: n in bs ==> bs[n] == Book(map[], Ledger(0, {}, {}))
    requires forall c :: c in b.chans ==> b.chans[c].ackStore == map[]
    ensures BrokerInv(b, bs)
  {
    forall n | n in b.queues ensures Account(b.queues[n], bs[n].h, bs[n].l) && Matches(b.chans, n, bs[n].h) {
      FreshAccount(b.queues[n].durable, b.queues[n].maxInRam);
    }
  }

  /** Conservation over every run of every channel: for each queue, total = ready + unacked, ready is the queue
      length, unacked is the number of ackStore entries over all channels, and every message ever pushed is in
      exactly one place. */
  lemma RunConserves(b: Broker, bs: Books, ops: seq<Op>, n: string)
    requires BrokerInv(b, bs) && Sized(b) && AllAllowed(b, bs, ops) && n in b.queues
    ensures BrokerInv(Run(b, ops), FinalBooks(b, bs, ops))
    ensures n in Run(b, ops).queues && n in FinalBooks(b, bs, ops)
    ensures var q, k := Run(b, ops).queues[n], FinalBooks(b, bs, ops)[n];
            && q.metrics.total == q.metrics.ready + q.metrics.unacked
            && q.metrics.ready == q.length == |View(q)|
            && q.metrics.unacked == |k.h| && Matches(Run(b, ops).chans, n, k.h)
            && k.l.pushed == Live(View(q), k.h.Values) + k.l.settled
            && |k.l.pushed| == |View(q)| + |k.h| + |k.l.settled|
  {
    AccountPreserved();
    RunKeepsOk(b, bs, ops, (q, k: Book) => Account(q, k.h, k.l));
    RunKeepsQueues(b, bs, ops, n);
    AccountAddsUp(Run(b, ops).queues[n], FinalBooks(b, bs, ops)[n].h, FinalBooks(b, bs, ops)[n].l);
  }

  lemma {:induction false} RunKeepsQueues(b: Broker, bs: Books, ops: seq<Op>, n: string)
    requires Sized(b) && n in b.queues && n in bs
    ensures n in Run(b, ops).queues && n in FinalBooks(b, bs, ops)
    decreases |ops|
  {
    if ops != [] {
      StepKeepsSized(b, ops[0]);
      StepKeepsQueue(b, ops[0], n);
      RunKeepsQueues(Step(b, ops[0]), BooksAfter(b, bs, ops[0]), ops[1..], n);
    }
  }

  lemma StepKeepsQueue(b: Broker, op: Op, n: string)
    requires Sized(b) && n in b.queues
    ensures n in Step(b, op).queues
  {
    if op.On? && Connected(b, op.chan) { ActShows(SessionOf(b, op.chan), op.action); }
  }
}
