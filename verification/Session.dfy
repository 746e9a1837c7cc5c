/**
 The delivery protocol of one channel: server/channel.go, server/basicMethods.go and
 consumer/consumer.go over the queues of the channel's virtual host. A session is the
 channel together with those queues and its connection's prefetch window; other
 channels act on the queues and on that window between the session's steps.
 */
module Sessions {
  import opened Options
  import opened Messages
  import opened BackedQueue
  import opened Qos
  import opened Words
  import Ascending
  import Seqs

  datatype Unacked = Unacked(cTag: string, msg: Message, queue: string)

  /** own is the consumer's private window, used by the Rabbit dialect in place of the connection's. */
  datatype Consumer = Consumer(queue: string, noAck: bool, stopped: bool, own: Window)

  datatype Chan = Chan(ackStore: map<nat, Unacked>, deliveryTag: nat, qos: Window, consumers: map<string, Consumer>)

  datatype Session = Session(rabbit: bool, queues: map<string, Queue>, conn: Window, chan: Chan)

  // ---------------------------------------------------------------- delivery

  /** Pops for this channel through its own window and a second one; returns the second window's new value. */
  function Fetch(s: Session, queue: string, noAck: bool, second: Window, cTag: string): (Session, Window)
    requires queue in s.queues
  {
    var (q, ws, r) := PopQos(s.queues[queue], if noAck then [] else [s.chan.qos, second]);
    ChargeShape([s.chan.qos, second], if s.queues[queue].ram == [] then 0 else s.queues[queue].ram[0].bodySize);
    var charged := if noAck then s.chan else s.chan.(qos := ws[0]);
    var second' := if noAck then second else ws[1];
    if r == None then (s.(queues := s.queues[queue := q], chan := charged), second')
    else
      var tag := charged.deliveryTag + 1;
      var (metrics, ackStore) :=
        if noAck then (q.metrics.(total := q.metrics.total - 1, ready := q.metrics.ready - 1), charged.ackStore)
        else (q.metrics.(unacked := q.metrics.unacked + 1, ready := q.metrics.ready - 1),
              charged.ackStore[tag := Unacked(cTag, r.value, queue)]);
      (s.(queues := s.queues[queue := q.(metrics := metrics)],
          chan := charged.(deliveryTag := tag, ackStore := ackStore)),
       second')
  }

  /** consumer.retrieveAndSendMessage */
  function Deliver(s: Session, cTag: string): Session {
    if cTag !in s.chan.consumers then s else
    var c := s.chan.consumers[cTag];
    if c.stopped || c.queue !in s.queues then s else
    var (s', second) := Fetch(s, c.queue, c.noAck, if s.rabbit then c.own else s.conn, cTag);
    if s.rabbit then s'.(chan := s'.chan.(consumers := s'.chan.consumers[cTag := c.(own := second)]))
    else s'.(conn := second)
  }

  /** basicGet: an unknown or inactive queue is an error and changes nothing. */
  function Get(s: Session, queue: string, noAck: bool): Session {
    if queue !in s.queues || !s.queues[queue].active then s else
    var (s', second) := Fetch(s, queue, noAck, s.conn, "");
    s'.(conn := second)
  }

  // ---------------------------------------------------------------- settlement

  function QueuesAfter(queues: map<string, Queue>, u: Unacked, requeue: bool): map<string, Queue> {
    if u.queue !in queues then queues
    else if requeue then queues[u.queue := Requeue(queues[u.queue], u.msg)]
    else queues[u.queue := AckMsg(queues[u.queue], u.msg)]
  }

  /** Does the consumer that got this message charge a window of its own? */
  predicate OwnWindow(rabbit: bool, consumers: map<string, Consumer>, u: Unacked) {
    rabbit && u.cTag in consumers
  }

  function ConsumersAfter(rabbit: bool, consumers: map<string, Consumer>, u: Unacked): map<string, Consumer> {
    if !OwnWindow(rabbit, consumers, u) then consumers else
    var c := consumers[u.cTag];
    consumers[u.cTag := c.(own := Dec(c.own, 1, u.msg.bodySize % WORD32))]
  }

  function ConnAfter(rabbit: bool, consumers: map<string, Consumer>, conn: Window, u: Unacked): Window {
    if OwnWindow(rabbit, consumers, u) then conn else Dec(conn, 1, u.msg.bodySize % WORD32)
  }

  /** ackMsg and rejectMsg for one delivery tag: dropped or acknowledged, or put back when requeue is set. */
  function SettleOne(s: Session, tag: nat, requeue: bool): Session
    requires tag in s.chan.ackStore
  {
    var u := s.chan.ackStore[tag];
    Session(
      s.rabbit,
      QueuesAfter(s.queues, u, requeue),
      ConnAfter(s.rabbit, s.chan.consumers, s.conn, u),
      s.chan.(ackStore := s.chan.ackStore - {tag},
              qos := Dec(s.chan.qos, 1, u.msg.bodySize % WORD32),
              consumers := ConsumersAfter(s.rabbit, s.chan.consumers, u)))
  }

  /** Settles the given tags in the given order. */
  function SettleAll(s: Session, tags: seq<nat>, requeue: bool): Session
    requires forall i :: 0 <= i < |tags| ==> tags[i] in s.chan.ackStore
    requires forall i, j :: 0 <= i < j < |tags| ==> tags[i] != tags[j]
    decreases |tags|
  {
    if tags == [] then s else
    var s' := SettleOne(s, tags[0], requeue);
    assert forall i :: 0 <= i < |tags[1..]| ==> tags[1..][i] == tags[i + 1];
    SettleAll(s', tags[1..], requeue)
  }

  /** The tags a multiple ack or nack covers: all of them for tag 0, else those up to the given one. */
  function Selected(s: Session, tag: nat): set<nat> {
    set t | t in s.chan.ackStore && (tag == 0 || t <= tag)
  }

  /** From the last to the first. */
  function Downwards(up: seq<nat>): seq<nat> {
    seq(|up|, i requires 0 <= i < |up| => up[|up| - 1 - i])
  }

  function Descending(ts: set<nat>): seq<nat> {
    Downwards(Ascending.Sorted(ts))
  }

  lemma DescendingLists(ts: set<nat>)
    ensures forall i :: 0 <= i < |Descending(ts)| ==> Descending(ts)[i] in ts
    ensures forall i, j :: 0 <= i < j < |Descending(ts)| ==> Descending(ts)[i] > Descending(ts)[j]
  {
    Ascending.SortedProps(ts);
    forall i | 0 <= i < |Descending(ts)| ensures Descending(ts)[i] in ts {
      SortedMember(ts, |ts| - 1 - i);
    }
  }

  datatype Reply = Ok(session: Session) | TagNotFound

  /** handleReject. A multiple reject goes through the selected tags from the largest down. */
  function HandleReject(s: Session, tag: nat, multiple: bool, requeue: bool): Reply {
    if multiple then
      DescendingLists(Selected(s, tag));
      Ok(SettleAll(s, Descending(Selected(s, tag)), requeue))
    else if tag !in s.chan.ackStore then TagNotFound
    else Ok(SettleOne(s, tag, requeue))
  }

  /** A channel that closes drops its consumers, then rejects everything it holds back into the queues. */
  function Close(s: Session): Session {
    HandleReject(s.(chan := s.chan.(consumers := map[])), 0, true, true).session
  }

  /** One thing a client makes its channel do. A multiple ack or nack is its single settlements. */
  datatype Action =
    | DeliverTo(cTag: string)
    | GetFrom(queue: string, noAck: bool)
    | Settle(tag: nat, requeue: bool)
    | Consumers(consumers: map<string, Consumer>)

  function Act(s: Session, a: Action): Session {
    match a
    case DeliverTo(cTag) => Deliver(s, cTag)
    case GetFrom(queue, noAck) => Get(s, queue, noAck)
    case Settle(tag, requeue) => if tag in s.chan.ackStore then SettleOne(s, tag, requeue) else s
    case Consumers(cs) => s.(chan := s.chan.(consumers := cs))
  }

  // ---------------------------------------------------------------- what the channel holds

  function HeldIn(ackStore: map<nat, Unacked>, tags: seq<nat>, queue: string): seq<Message> {
    if tags == [] then [] else HeldAt(ackStore, tags[0], queue) + HeldIn(ackStore, tags[1..], queue)
  }

  /** The messages of one queue among the given delivery tags, in tag order. */
  function HeldOf(s: Session, tags: set<nat>, queue: string): seq<Message> {
    HeldIn(s.chan.ackStore, Ascending.Sorted(tags), queue)
  }

  function Held(s: Session, queue: string): seq<Message> {
    HeldOf(s, s.chan.ackStore.Keys, queue)
  }

  /** The message of one tag, if it is one of the queue. */
  function HeldAt(ackStore: map<nat, Unacked>, tag: nat, queue: string): seq<Message> {
    if tag in ackStore && ackStore[tag].queue == queue then [ackStore[tag].msg] else []
  }

  lemma {:induction false} HeldInSnoc(ackStore: map<nat, Unacked>, tags: seq<nat>, tag: nat, queue: string)
    ensures HeldIn(ackStore, tags + [tag], queue) == HeldIn(ackStore, tags, queue) + HeldAt(ackStore, tag, queue)
  {
    if tags == [] {
      assert tags + [tag] == [tag] && [tag][1..] == [];
    } else {
      HeldInSnoc(ackStore, tags[1..], tag, queue);
      assert (tags + [tag])[1..] == tags[1..] + [tag];
      Seqs.Assoc(HeldAt(ackStore, tags[0], queue), HeldIn(ackStore, tags[1..], queue), HeldAt(ackStore, tag, queue));
    }
  }

  /** Only the listed tags matter. */
  lemma {:induction false} HeldInAgrees(a: map<nat, Unacked>, b: map<nat, Unacked>, tags: seq<nat>, queue: string)
    requires forall i :: 0 <= i < |tags| ==>
               (tags[i] in a <==> tags[i] in b) && (tags[i] in a ==> a[tags[i]] == b[tags[i]])
    ensures HeldIn(a, tags, queue) == HeldIn(b, tags, queue)
  {
    if tags != [] {
      assert forall i :: 0 <= i < |tags[1..]| ==> tags[1..][i] == tags[i + 1];
      HeldInAgrees(a, b, tags[1..], queue);
    }
  }

  // ---------------------------------------------------------------- requeueing keeps the order

  /** Requeues the messages one by one, the last one first. */
  function RequeueFromLast(q: Queue, ms: seq<Message>): Queue
    decreases |ms|
  {
    if ms == [] then q else RequeueFromLast(Requeue(q, ms[|ms| - 1]), ms[..|ms| - 1])
  }

  /** Put back from the last to the first, messages end up in front of the queue in their own order. */
  lemma {:induction false} RequeueRestoresOrder(q: Queue, ms: seq<Message>)
    requires q.active && Inv(q) && forall i :: 0 <= i < |ms| ==> Seen(q, ms[i])
    ensures Inv(RequeueFromLast(q, ms)) && View(RequeueFromLast(q, ms)) == ms + View(q)
    decreases |ms|
  {
    if ms != [] {
      var front, last := ms[..|ms| - 1], ms[|ms| - 1];
      RequeuePrepends(q, last);
      var q' := Requeue(q, last);
      forall i | 0 <= i < |front| ensures Seen(q', front[i]) { assert Seen(q, ms[i]); }
      RequeueRestoresOrder(q', front);
      assert ms == front + [last];
      Seqs.Assoc(front, [last], View(q));
    } else {
      assert [] + View(q) == View(q);
    }
  }

  ghost predicate Listed(s: Session, tags: seq<nat>) {
    && (forall i :: 0 <= i < |tags| ==> tags[i] in s.chan.ackStore)
    && (forall i, j :: 0 <= i < j < |tags| ==> tags[i] != tags[j])
  }

  lemma SettleOneEffect(s: Session, tag: nat, queue: string)
    requires tag in s.chan.ackStore && queue in s.queues
    ensures var s', u := SettleOne(s, tag, true), s.chan.ackStore[tag];
            && s'.queues.Keys == s.queues.Keys
            && s'.queues[queue] == (if u.queue == queue then Requeue(s.queues[queue], u.msg) else s.queues[queue])
            && s'.chan.ackStore == s.chan.ackStore - {tag}
  {
  }

  lemma ListedFront(s: Session, up: seq<nat>)
    requires Listed(s, up) && up != []
    ensures var last, front := up[|up| - 1], up[..|up| - 1];
            && Listed(SettleOne(s, last, true), front) && last !in front
            && Ascending.Elems(up) == {last} + Ascending.Elems(front)
  {
    var last, front := up[|up| - 1], up[..|up| - 1];
    var s1 := SettleOne(s, last, true);
    assert s1.chan.ackStore == s.chan.ackStore - {last};
    forall i | 0 <= i < |front| ensures front[i] in s1.chan.ackStore { assert front[i] == up[i]; }
  }

  lemma DownwardsListed(s: Session, up: seq<nat>)
    requires Listed(s, up)
    ensures Listed(s, Downwards(up))
    ensures up != [] ==> Downwards(up)[0] == up[|up| - 1] && Downwards(up)[1..] == Downwards(up[..|up| - 1])
  {
  }

  lemma StoreWithout(store: map<nat, Unacked>, tag: nat, tags: set<nat>)
    ensures store - {tag} - tags == store - ({tag} + tags)
  {
  }

  /** Settling tags from the last to the first touches a queue only through its own messages among them. */
  lemma {:induction false} SettleDownEffect(s: Session, up: seq<nat>, queue: string)
    requires Listed(s, up) && queue in s.queues
    ensures Listed(s, Downwards(up))
    ensures var s' := SettleAll(s, Downwards(up), true);
            && s'.queues.Keys == s.queues.Keys
            && s'.queues[queue] == RequeueFromLast(s.queues[queue], HeldIn(s.chan.ackStore, up, queue))
            && s'.chan.ackStore == s.chan.ackStore - Ascending.Elems(up)
    decreases |up|
  {
    DownwardsListed(s, up);
    if up != [] {
      var last, front := up[|up| - 1], up[..|up| - 1];
      var s1 := SettleOne(s, last, true);
      ListedFront(s, up);
      SettleOneEffect(s, last, queue);
      SettleDownEffect(s1, front, queue);
      HeldInAgrees(s.chan.ackStore, s1.chan.ackStore, front, queue);
      LastRequeued(s, front, last, queue);
      assert up == front + [last];
      StoreWithout(s.chan.ackStore, last, Ascending.Elems(front));
    } else {
      Ascending.NoElems(up);
      assert s.chan.ackStore - {} == s.chan.ackStore;
    }
  }

  /** The message of the last tag is the first to be requeued. */
  lemma LastRequeued(s: Session, front: seq<nat>, last: nat, queue: string)
    requires last in s.chan.ackStore && queue in s.queues
    ensures var u, q := s.chan.ackStore[last], s.queues[queue];
            var q' := if u.queue == queue then Requeue(q, u.msg) else q;
            RequeueFromLast(q, HeldIn(s.chan.ackStore, front + [last], queue)) ==
              RequeueFromLast(q', HeldIn(s.chan.ackStore, front, queue))
  {
    var held, u := HeldIn(s.chan.ackStore, front, queue), s.chan.ackStore[last];
    HeldInSnoc(s.chan.ackStore, front, last, queue);
    if u.queue == queue {
      assert (held + [u.msg])[..|held|] == held;
    } else {
      assert held + [] == held;
    }
  }

  /** Every message the channel holds of an existing queue has been in that queue's RAM part. */
  ghost predicate Deliverable(s: Session, queue: string) {
    && queue in s.queues && s.queues[queue].active && Inv(s.queues[queue])
    && (forall t :: t in s.chan.ackStore && s.chan.ackStore[t].queue == queue ==>
          Seen(s.queues[queue], s.chan.ackStore[t].msg))
  }

  lemma {:induction false} HeldInSeen(s: Session, tags: seq<nat>, queue: string)
    requires Deliverable(s, queue)
    ensures forall i :: 0 <= i < |HeldIn(s.chan.ackStore, tags, queue)| ==>
              Seen(s.queues[queue], HeldIn(s.chan.ackStore, tags, queue)[i])
  {
    if tags != [] { HeldInSeen(s, tags[1..], queue); }
  }

  /** A multiple nack with requeue puts exactly the selected messages of a queue back in front of it, in the
      order of their delivery tags, and takes exactly the selected tags out of the channel. */
  lemma NackMultipleRestores(s: Session, tag: nat, queue: string)
    requires Deliverable(s, queue)
    ensures var s' := HandleReject(s, tag, true, true).session;
            && queue in s'.queues && Inv(s'.queues[queue])
            && View(s'.queues[queue]) == HeldOf(s, Selected(s, tag), queue) + View(s.queues[queue])
            && s'.chan.ackStore == s.chan.ackStore - Selected(s, tag)
  {
    var ts := Selected(s, tag);
    var up := Ascending.Sorted(ts);
    SortedListed(s, ts);
    SettleDownEffect(s, up, queue);
    HeldInSeen(s, up, queue);
    RequeueRestoresOrder(s.queues[queue], HeldIn(s.chan.ackStore, up, queue));
  }

  lemma SortedListed(s: Session, ts: set<nat>)
    requires ts <= s.chan.ackStore.Keys
    ensures Listed(s, Ascending.Sorted(ts)) && Ascending.Elems(Ascending.Sorted(ts)) == ts
  {
    Ascending.SortedProps(ts);
    forall i | 0 <= i < |Ascending.Sorted(ts)| ensures Ascending.Sorted(ts)[i] in s.chan.ackStore {
      SortedMember(ts, i);
    }
  }

  /** Closing the channel puts everything it holds back, in delivery order. */
  lemma CloseRestores(s: Session, queue: string)
    requires Deliverable(s, queue)
    ensures queue in Close(s).queues && Inv(Close(s).queues[queue])
    ensures View(Close(s).queues[queue]) == Held(s, queue) + View(s.queues[queue])
    ensures Close(s).chan.ackStore == map[]
  {
    var s0 := s.(chan := s.chan.(consumers := map[]));
    assert Selected(s0, 0) == s.chan.ackStore.Keys;
    NackMultipleRestores(s0, 0, queue);
  }

  // ---------------------------------------------------------------- delivering moves the head to the channel

  ghost predicate TagsOk(s: Session) {
    forall t :: t in s.chan.ackStore ==> t <= s.chan.deliveryTag
  }

  /** What the channel holds of a queue, followed by what the queue holds. */
  function Whole(s: Session, queue: string): seq<Message>
    requires queue in s.queues
  {
    Held(s, queue) + View(s.queues[queue])
  }

  /** A new largest tag holds the last message. */
  lemma HeldAppend(s: Session, s': Session, tag: nat, u: Unacked, queue: string)
    requires forall t :: t in s.chan.ackStore ==> t < tag
    requires s'.chan.ackStore == s.chan.ackStore[tag := u]
    ensures Held(s', queue) == Held(s, queue) + if u.queue == queue then [u.msg] else []
  {
    var a, a' := s.chan.ackStore, s'.chan.ackStore;
    Ascending.SortedAppend(a.Keys, tag);
    assert a'.Keys == a.Keys + {tag};
    HeldInSnoc(a', Ascending.Sorted(a.Keys), tag, queue);
    forall i | 0 <= i < |Ascending.Sorted(a.Keys)| ensures Ascending.Sorted(a.Keys)[i] in a.Keys {
      SortedMember(a.Keys, i);
    }
    HeldInAgrees(a, a', Ascending.Sorted(a.Keys), queue);
  }

  /** Inv, View and Seen do not look at the counters. */
  lemma MetricsInvisible(q: Queue, m: Metrics)
    ensures Inv(q.(metrics := m)) <==> Inv(q)
    ensures View(q.(metrics := m)) == View(q)
    ensures forall x :: Seen(q.(metrics := m), x) <==> Seen(q, x)
  {
    assert View(q.(metrics := m)) == View(q);
  }

  /** A pop, with whatever counters the caller then sets. */
  lemma PopFacts(q: Queue, ws: seq<Window>, m: Metrics)
    requires Inv(q)
    ensures var (q', _, r) := PopQos(q, ws);
            && Inv(q'.(metrics := m)) && q'.active == q.active
            && View(q) == (if r.Some? then [r.value] else []) + View(q'.(metrics := m))
            && (r.Some? ==> Seen(q'.(metrics := m), r.value))
            && (forall x :: Seen(q, x) ==> Seen(q'.(metrics := m), x))
  {
    PopTakesHead(q, ws);
    MetricsInvisible(PopQos(q, ws).0, m);
  }

  /** How Fetch changes the queue and the channel, in terms of the pop. */
  lemma FetchEffect(s: Session, queue: string, second: Window, cTag: string)
    requires queue in s.queues
    ensures var (q, _, r) := PopQos(s.queues[queue], [s.chan.qos, second]);
            var s' := Fetch(s, queue, false, second, cTag).0;
            && s'.queues == s.queues[queue := q.(metrics := s'.queues[queue].metrics)]
            && s'.chan.consumers == s.chan.consumers && s'.rabbit == s.rabbit
            && (if r == None then s'.chan.ackStore == s.chan.ackStore && s'.chan.deliveryTag == s.chan.deliveryTag
                else && s'.chan.deliveryTag == s.chan.deliveryTag + 1
                     && s'.chan.ackStore == s.chan.ackStore[s'.chan.deliveryTag := Unacked(cTag, r.value, queue)])
  {
  }

  lemma FetchKeepsWhole(s: Session, queue: string, second: Window, cTag: string, n: string)
    requires TagsOk(s) && queue in s.queues && Deliverable(s, n)
    ensures var s' := Fetch(s, queue, false, second, cTag).0;
            TagsOk(s') && Deliverable(s', n) && Whole(s', n) == Whole(s, n)
  {
    var s' := Fetch(s, queue, false, second, cTag).0;
    var (_, _, r) := PopQos(s.queues[queue], [s.chan.qos, second]);
    FetchEffect(s, queue, second, cTag);
    if n == queue { PopFacts(s.queues[n], [s.chan.qos, second], s'.queues[n].metrics); }
    if r.Some? {
      HeldAppend(s, s', s'.chan.deliveryTag, Unacked(cTag, r.value, queue), n);
      if n == queue { assert Held(s, n) + ([r.value] + View(s'.queues[n])) == Whole(s', n); }
    }
  }

  /** Deliveries to consumers and gets on this channel, while publishers push and the queues load. */
  datatype Event =
    | ToConsumer(cTag: string)
    | ToGet(queue: string)
    | Load(queue: string)
    | Publish(queue: string, m: Message)

  ghost predicate Sized(s: Session) {
    forall n :: n in s.queues ==> s.queues[n].maxInRam < WORD64
  }

  function On(s: Session, e: Event): Session
    requires Sized(s)
  {
    match e
    case ToConsumer(cTag) => Deliver(s, cTag)
    case ToGet(n) => Get(s, n, false)
    case Load(n) => if n in s.queues then s.(queues := s.queues[n := BackedQueue.Load(s.queues[n])]) else s
    case Publish(n, m) => if n in s.queues then s.(queues := s.queues[n := Push(s.queues[n], m)]) else s
  }

  ghost predicate Possible(s: Session, e: Event) {
    && (e.ToConsumer? && e.cTag in s.chan.consumers ==> !s.chan.consumers[e.cTag].noAck)
    && (e.Publish? && e.queue in s.queues ==> Newest(s.queues[e.queue], e.m))
  }

  function Pushed(e: Event, n: string): seq<Message> {
    if e.Publish? && e.queue == n then [e.m] else []
  }

  lemma DeliverIsFetch(s: Session, cTag: string, n: string)
    requires TagsOk(s) && Deliverable(s, n)
    requires cTag in s.chan.consumers ==> !s.chan.consumers[cTag].noAck
    ensures TagsOk(Deliver(s, cTag)) && Deliverable(Deliver(s, cTag), n) && Whole(Deliver(s, cTag), n) == Whole(s, n)
  {
    if cTag in s.chan.consumers {
      var c := s.chan.consumers[cTag];
      if !c.stopped && c.queue in s.queues {
        FetchKeepsWhole(s, c.queue, if s.rabbit then c.own else s.conn, cTag, n);
      }
    }
  }

  lemma GetIsFetch(s: Session, queue: string, n: string)
    requires TagsOk(s) && Deliverable(s, n)
    ensures TagsOk(Get(s, queue, false)) && Deliverable(Get(s, queue, false), n)
    ensures Whole(Get(s, queue, false), n) == Whole(s, n)
  {
    if queue in s.queues && s.queues[queue].active {
      FetchKeepsWhole(s, queue, s.conn, "", n);
    }
  }

  lemma QueueStepKeepsWhole(s: Session, k: string, q: Queue, n: string, tail: seq<Message>)
    requires TagsOk(s) && Deliverable(s, n) && k in s.queues
    requires k == n ==> && Inv(q) && q.active && View(q) == View(s.queues[n]) + tail
                        && (forall x :: Seen(s.queues[n], x) ==> Seen(q, x))
    ensures var s' := s.(queues := s.queues[k := q]);
            TagsOk(s') && Deliverable(s', n) && Whole(s', n) == Whole(s, n) + if k == n then tail else []
  {
  }

  lemma LoadEvent(s: Session, k: string, n: string)
    requires TagsOk(s) && Deliverable(s, n) && Sized(s) && k in s.queues
    ensures var s' := s.(queues := s.queues[k := BackedQueue.Load(s.queues[k])]);
            TagsOk(s') && Deliverable(s', n) && Whole(s', n) == Whole(s, n)
  {
    if k == n { LoadKeepsView(s.queues[n]); }
    QueueStepKeepsWhole(s, k, BackedQueue.Load(s.queues[k]), n, []);
  }

  lemma PublishEvent(s: Session, k: string, m: Message, n: string)
    requires TagsOk(s) && Deliverable(s, n) && k in s.queues && Newest(s.queues[k], m)
    ensures var s' := s.(queues := s.queues[k := Push(s.queues[k], m)]);
            TagsOk(s') && Deliverable(s', n) && Whole(s', n) == Whole(s, n) + if k == n then [m] else []
  {
    if k == n { PushAppends(s.queues[n], m); }
    QueueStepKeepsWhole(s, k, Push(s.queues[k], m), n, [m]);
  }

  lemma EventKeepsWhole(s: Session, e: Event, n: string)
    requires TagsOk(s) && Deliverable(s, n) && Possible(s, e) && Sized(s)
    ensures TagsOk(On(s, e)) && Deliverable(On(s, e), n)
    ensures Whole(On(s, e), n) == Whole(s, n) + Pushed(e, n)
  {
    match e
    case ToConsumer(cTag) => DeliverIsFetch(s, cTag, n);
    case ToGet(k) => GetIsFetch(s, k, n);
    case Load(k) => if k in s.queues { LoadEvent(s, k, n); }
    case Publish(k, m) => if k in s.queues { PublishEvent(s, k, m, n); }
  }

  lemma FetchKeepsSized(s: Session, queue: string, noAck: bool, second: Window, cTag: string)
    requires Sized(s) && queue in s.queues
    ensures Sized(Fetch(s, queue, noAck, second, cTag).0)
  {
  }

  lemma LoadKeepsSize(q: Queue)
    requires q.maxInRam < WORD64
    ensures BackedQueue.Load(q).maxInRam == q.maxInRam
  {
  }

  lemma EventKeepsSized(s: Session, e: Event)
    requires Sized(s)
    ensures Sized(On(s, e))
  {
    match e
    case ToConsumer(cTag) =>
      if cTag in s.chan.consumers && s.chan.consumers[cTag].queue in s.queues {
        var c := s.chan.consumers[cTag];
        FetchKeepsSized(s, c.queue, c.noAck, if s.rabbit then c.own else s.conn, cTag);
      }
    case ToGet(k) => if k in s.queues { FetchKeepsSized(s, k, false, s.conn, ""); }
    case Load(k) => if k in s.queues { LoadKeepsSize(s.queues[k]); }
    case Publish(k, m) =>
  }

  function Run(s: Session, es: seq<Event>): Session
    requires Sized(s)
    decreases |es|
  {
    if es == [] then s else
    EventKeepsSized(s, es[0]);
    Run(On(s, es[0]), es[1..])
  }

  ghost predicate AllPossible(s: Session, es: seq<Event>)
    requires Sized(s)
    decreases |es|
  {
    es == [] || (Possible(s, es[0]) && (EventKeepsSized(s, es[0]); AllPossible(On(s, es[0]), es[1..])))
  }

  function AllPushed(es: seq<Event>, n: string): seq<Message> {
    if es == [] then [] else Pushed(es[0], n) + AllPushed(es[1..], n)
  }

  lemma {:induction false} RunKeepsWhole(s: Session, es: seq<Event>, n: string)
    requires TagsOk(s) && Deliverable(s, n) && Sized(s) && AllPossible(s, es)
    ensures Deliverable(Run(s, es), n)
    ensures Whole(Run(s, es), n) == Whole(s, n) + AllPushed(es, n)
    decreases |es|
  {
    if es != [] {
      EventKeepsWhole(s, es[0], n);
      EventKeepsSized(s, es[0]);
      RunKeepsWhole(On(s, es[0]), es[1..], n);
      Seqs.Assoc(Whole(s, n), Pushed(es[0], n), AllPushed(es[1..], n));
    } else {
      assert Whole(s, n) + [] == Whole(s, n);
    }
  }

  /** However many messages of however many queues a channel took without settling them, closing it leaves
      every queue as if they had never been delivered: what was there, in the old order, then what was
      published meanwhile. */
  lemma DeliverThenCloseRestores(s: Session, es: seq<Event>, n: string)
    requires TagsOk(s) && Deliverable(s, n) && Sized(s) && AllPossible(s, es)
    requires s.chan.ackStore == map[]
    ensures n in Close(Run(s, es)).queues
    ensures View(Close(Run(s, es)).queues[n]) == View(s.queues[n]) + AllPushed(es, n)
  {
    RunKeepsWhole(s, es, n);
    NothingHeld(s, n);
    CloseGivesWhole(Run(s, es), n);
  }

  lemma NothingHeld(s: Session, n: string)
    requires s.chan.ackStore == map[] && n in s.queues
    ensures Whole(s, n) == View(s.queues[n])
  {
    assert Ascending.Sorted(s.chan.ackStore.Keys) == [];
    assert Held(s, n) == [];
  }

  lemma CloseGivesWhole(s: Session, n: string)
    requires Deliverable(s, n)
    ensures n in Close(s).queues && View(Close(s).queues[n]) == Whole(s, n)
  {
    CloseRestores(s, n);
  }
}
