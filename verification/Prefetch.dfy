/**
 Prefetch windows over whole runs of one channel, with every other channel of the
 broker free to change the queues and the connection's window between its steps.
 */
module Prefetch {
  import opened Messages
  import opened BackedQueue
  import opened Qos
  import opened Sessions
  import opened Words

  /** One step on the channel, or anything the rest of the broker may do around it. */
  datatype Step = Own(action: Action) | Others(queues: map<string, Queue>, conn: Window)

  function Next(s: Session, st: Step): Session {
    match st
    case Own(a) => Act(s, a)
    case Others(queues, conn) => s.(queues := queues, conn := conn)
  }

  function RunSteps(s: Session, steps: seq<Step>): Session
    decreases |steps|
  {
    if steps == [] then s else RunSteps(Next(s, steps[0]), steps[1..])
  }

  /** The channel's own limit is p; it has counted every message it holds, and never more than p. */
  ghost predicate Within(c: Chan, p: nat) {
    && c.qos.prefetchCount == p && Fits(c.qos)
    && (forall t :: t in c.ackStore ==> t <= c.deliveryTag)
    && |c.ackStore| <= c.qos.currentCount <= p
  }

  lemma ChargeTwo(w: Window, v: Window, size: nat)
    requires IsActive(w)
    ensures var (w', ok) := Inc(w, 1, size % WORD32);
            var (v', ok') := Inc(v, 1, size % WORD32);
            Charge([w, v], size) ==
              if !ok then ([w, v], false)
              else if !IsActive(v) then ([w', v], true)
              else if !ok' then ([w', v], false)
              else ([w', v'], true)
  {
    var (w', ok) := Inc(w, 1, size % WORD32);
    var (v', ok') := Inc(v, 1, size % WORD32);
    assert [w, v][1..] == [v] && [v][1..] == [];
    assert [v] + [] == [v] && [v'] + [] == [v'];
    assert Charge([v], size) == if !IsActive(v) then ([v], true) else if !ok' then ([v], false) else ([v'], true);
    assert [w'] + [v] == [w', v] && [w'] + [v'] == [w', v'];
  }

  function Size(q: Queue): nat {
    if q.ram == [] then 0 else q.ram[0].bodySize % WORD32
  }

  /** An acking fetch does nothing, or charges the channel for nothing because the second window refused, or
      charges it and adds one tag. */
  lemma FetchCharges(s: Session, queue: string, second: Window, cTag: string)
    requires queue in s.queues && IsActive(s.chan.qos)
    ensures var (w, ok) := Inc(s.chan.qos, 1, Size(s.queues[queue]));
            var c, (s', second') := s.chan, Fetch(s, queue, false, second, cTag);
            && (|| s'.chan == c
                || (ok && IsActive(second) && s'.chan == c.(qos := w))
                || (ok && s'.chan == c.(qos := w, deliveryTag := c.deliveryTag + 1, ackStore := s'.chan.ackStore)
                       && s'.chan.ackStore.Keys == c.ackStore.Keys + {c.deliveryTag + 1}))
            && (!IsActive(second) ==> second' == second)
  {
    var q := s.queues[queue];
    if q.active && q.ram != [] {
      ChargeTwo(s.chan.qos, second, q.ram[0].bodySize);
    }
  }

  lemma FetchWithin(s: Session, queue: string, noAck: bool, second: Window, cTag: string, p: nat)
    requires Within(s.chan, p) && 0 < p < WORD16 - 1 && queue in s.queues
    ensures Within(Fetch(s, queue, noAck, second, cTag).0.chan, p)
  {
    if !noAck {
      FetchCharges(s, queue, second, cTag);
      IncCounts(s.chan.qos, Size(s.queues[queue]));
    }
  }

  lemma DeliverWithin(s: Session, cTag: string, p: nat)
    requires Within(s.chan, p) && 0 < p < WORD16 - 1
    ensures Within(Deliver(s, cTag).chan, p)
  {
    if cTag in s.chan.consumers {
      var c := s.chan.consumers[cTag];
      if !c.stopped && c.queue in s.queues {
        FetchWithin(s, c.queue, c.noAck, if s.rabbit then c.own else s.conn, cTag, p);
      }
    }
  }

  lemma GetWithin(s: Session, queue: string, noAck: bool, p: nat)
    requires Within(s.chan, p) && 0 < p < WORD16 - 1
    ensures Within(Get(s, queue, noAck).chan, p)
  {
    if queue in s.queues && s.queues[queue].active {
      FetchWithin(s, queue, noAck, s.conn, "", p);
    }
  }

  lemma SettleWithin(s: Session, tag: nat, requeue: bool, p: nat)
    requires Within(s.chan, p) && tag in s.chan.ackStore
    ensures Within(SettleOne(s, tag, requeue).chan, p)
  {
    assert s.chan.ackStore.Keys == (s.chan.ackStore - {tag}).Keys + {tag};
  }

  lemma NextWithin(s: Session, st: Step, p: nat)
    requires Within(s.chan, p) && 0 < p < WORD16 - 1
    ensures Within(Next(s, st).chan, p)
  {
    match st
    case Own(DeliverTo(cTag)) => DeliverWithin(s, cTag, p);
    case Own(GetFrom(queue, noAck)) => GetWithin(s, queue, noAck, p);
    case Own(Settle(tag, requeue)) => if tag in s.chan.ackStore { SettleWithin(s, tag, requeue, p); }
    case Own(Consumers(_)) =>
    case Others(_, _) =>
  }

  /** Prefetch safety: a channel whose limit is p never holds more than p unacknowledged messages, whatever
      its clients and the rest of the broker do. */
  lemma {:induction false} PrefetchSafe(s: Session, steps: seq<Step>, p: nat)
    requires Within(s.chan, p) && 0 < p < WORD16 - 1
    ensures Within(RunSteps(s, steps).chan, p)
    ensures |RunSteps(s, steps).chan.ackStore| <= RunSteps(s, steps).chan.qos.currentCount <= p
    decreases |steps|
  {
    if steps != [] {
      NextWithin(s, steps[0], p);
      PrefetchSafe(Next(s, steps[0]), steps[1..], p);
    }
  }

  // ---------------------------------------------------------------- exact counting, and what breaks it

  /** No window but the channel's own limits anything. */
  ghost predicate Alone(s: Session) {
    !IsActive(s.conn) && forall t :: t in s.chan.consumers ==> !IsActive(s.chan.consumers[t].own)
  }

  ghost predicate KeepsAlone(st: Step) {
    && (st.Others? ==> !IsActive(st.conn))
    && (st.Own? && st.action.Consumers? ==>
          forall t :: t in st.action.consumers ==> !IsActive(st.action.consumers[t].own))
  }

  /** The channel has counted exactly the messages it holds. */
  ghost predicate Exact(s: Session, p: nat) {
    Within(s.chan, p) && Alone(s) && s.chan.qos.currentCount == |s.chan.ackStore|
  }

  lemma FetchExact(s: Session, queue: string, noAck: bool, second: Window, cTag: string, p: nat)
    requires Exact(s, p) && 0 < p < WORD16 - 1 && queue in s.queues && !IsActive(second)
    ensures Exact(Fetch(s, queue, noAck, second, cTag).0, p) && Fetch(s, queue, noAck, second, cTag).1 == second
  {
    if !noAck {
      FetchCharges(s, queue, second, cTag);
      IncCounts(s.chan.qos, Size(s.queues[queue]));
    }
  }

  lemma NextExact(s: Session, st: Step, p: nat)
    requires Exact(s, p) && 0 < p < WORD16 - 1 && KeepsAlone(st)
    ensures Exact(Next(s, st), p)
  {
    match st
    case Own(DeliverTo(cTag)) =>
      if cTag in s.chan.consumers {
        var c := s.chan.consumers[cTag];
        if !c.stopped && c.queue in s.queues {
          FetchExact(s, c.queue, c.noAck, if s.rabbit then c.own else s.conn, cTag, p);
        }
      }
    case Own(GetFrom(queue, noAck)) =>
      if queue in s.queues && s.queues[queue].active { FetchExact(s, queue, noAck, s.conn, "", p); }
    case Own(Settle(tag, requeue)) =>
      if tag in s.chan.ackStore { SettleWithin(s, tag, requeue, p); SettleCounts(s, tag, requeue); }
    case Own(Consumers(_)) =>
    case Others(_, _) =>
  }

  lemma SettleCounts(s: Session, tag: nat, requeue: bool)
    requires tag in s.chan.ackStore && |s.chan.ackStore| <= s.chan.qos.currentCount
    ensures var c, c' := s.chan, SettleOne(s, tag, requeue).chan;
            |c'.ackStore| == |c.ackStore| - 1 && c'.qos.currentCount == c.qos.currentCount - 1
  {
    assert s.chan.ackStore.Keys == (s.chan.ackStore - {tag}).Keys + {tag};
  }

  /** While no other window is active the count is exact at every point. */
  lemma {:induction false} CountExact(s: Session, steps: seq<Step>, p: nat)
    requires Exact(s, p) && 0 < p < WORD16 - 1
    requires forall i :: 0 <= i < |steps| ==> KeepsAlone(steps[i])
    ensures RunSteps(s, steps).chan.qos.currentCount == |RunSteps(s, steps).chan.ackStore|
    decreases |steps|
  {
    if steps != [] {
      NextExact(s, steps[0], p);
      CountExact(Next(s, steps[0]), steps[1..], p);
    }
  }

  /** A second window that refuses leaves the channel charged for a message it never got: one get on a
      channel that may hold one message, over a connection whose window is full. */
  lemma RefusalLeaks()
    ensures exists s: Session, queue: string ::
              && Within(s.chan, 1) && s.chan.ackStore == map[] && s.chan.qos.currentCount == 0
              && Get(s, queue, false).chan.ackStore == map[]
              && Get(s, queue, false).chan.qos.currentCount == 1
  {
    var m := Message(1, false, 0, "");
    var q := Push(New(false, 10).(active := true), m);
    assert q.ram == [m];
    var chan := Chan(map[], 0, Window(1, 0, 0, 0), map[]);
    var s := Session(false, map["q" := q], Window(1, 1, 0, 0), chan);
    ChargeTwo(chan.qos, s.conn, 0);
    assert Get(s, "q", false).chan == chan.(qos := Window(1, 1, 0, 0));
  }

  /** The channel holds nothing and its window is full. */
  ghost predicate Starved(c: Chan, p: nat) {
    c.qos.prefetchCount == p == c.qos.currentCount && Fits(c.qos) && c.ackStore == map[]
  }

  /** Once leaked charges fill the window, the channel never receives an acknowledged message again: it has
      nothing to settle, so nothing ever lowers the count. */
  lemma {:induction false} LeakStarvesForever(s: Session, steps: seq<Step>, p: nat)
    requires Starved(s.chan, p) && 0 < p < WORD16 - 1
    ensures Starved(RunSteps(s, steps).chan, p)
    decreases |steps|
  {
    if steps != [] {
      StarvedStays(s, steps[0], p);
      LeakStarvesForever(Next(s, steps[0]), steps[1..], p);
    }
  }

  lemma FetchStarved(s: Session, queue: string, noAck: bool, second: Window, cTag: string, p: nat)
    requires Starved(s.chan, p) && 0 < p < WORD16 - 1 && queue in s.queues
    ensures Starved(Fetch(s, queue, noAck, second, cTag).0.chan, p)
  {
    if !noAck {
      FetchCharges(s, queue, second, cTag);
      FullWindowRefusesIff(s.chan.qos, Size(s.queues[queue]));
    }
  }

  lemma StarvedStays(s: Session, st: Step, p: nat)
    requires Starved(s.chan, p) && 0 < p < WORD16 - 1
    ensures Starved(Next(s, st).chan, p)
  {
    match st
    case Own(DeliverTo(cTag)) =>
      if cTag in s.chan.consumers {
        var c := s.chan.consumers[cTag];
        if !c.stopped && c.queue in s.queues {
          FetchStarved(s, c.queue, c.noAck, if s.rabbit then c.own else s.conn, cTag, p);
        }
      }
    case Own(GetFrom(queue, noAck)) =>
      if queue in s.queues && s.queues[queue].active { FetchStarved(s, queue, noAck, s.conn, "", p); }
    case Own(Settle(_, _)) =>
    case Own(Consumers(_)) =>
    case Others(_, _) =>
  }
}
