/**
 server/channel.go with the channel's fields updated in place: the ackStore map, the
 delivery tag counter, the prefetch windows and the queues it settles to. The queues
 and windows it calls are held as values; every method is proved to perform the step
 of the same name of module Sessions.
 */
module Channels {
  import opened Messages
  import opened BackedQueue
  import opened Qos
  import opened Sessions
  import opened Words
  import Ascending

  // ---------------------------------------------------------------- settling in any order

  lemma DecCommutes(w: Window, a: nat, b: nat)
    ensures Dec(Dec(w, 1, a), 1, b) == Dec(Dec(w, 1, b), 1, a)
  {
  }

  lemma QueuesCommute(queues: map<string, Queue>, u: Unacked, v: Unacked)
    ensures QueuesAfter(QueuesAfter(queues, u, false), v, false) == QueuesAfter(QueuesAfter(queues, v, false), u, false)
  {
    if u.queue in queues && u.queue == v.queue {
      var q := queues[u.queue];
      assert q.p - {u.msg.id} - {v.msg.id} == q.p - {v.msg.id} - {u.msg.id};
      assert AckMsg(AckMsg(q, u.msg), v.msg) == AckMsg(AckMsg(q, v.msg), u.msg);
    }
  }

  lemma ConsumersCommute(rabbit: bool, cs: map<string, Consumer>, u: Unacked, v: Unacked)
    ensures ConsumersAfter(rabbit, ConsumersAfter(rabbit, cs, u), v)
            == ConsumersAfter(rabbit, ConsumersAfter(rabbit, cs, v), u)
    ensures ConsumersAfter(rabbit, cs, u).Keys == cs.Keys
  {
    if OwnWindow(rabbit, cs, u) && u.cTag == v.cTag {
      DecCommutes(cs[u.cTag].own, u.msg.bodySize % WORD32, v.msg.bodySize % WORD32);
    }
  }

  /** Two acknowledgements give the same result in either order. */
  lemma AcksCommute(s: Session, a: nat, b: nat)
    requires a in s.chan.ackStore && b in s.chan.ackStore && a != b
    ensures SettleOne(SettleOne(s, a, false), b, false) == SettleOne(SettleOne(s, b, false), a, false)
  {
    var u, v := s.chan.ackStore[a], s.chan.ackStore[b];
    QueuesCommute(s.queues, u, v);
    ConsumersCommute(s.rabbit, s.chan.consumers, u, v);
    ConsumersCommute(s.rabbit, s.chan.consumers, v, u);
    DecCommutes(s.chan.qos, u.msg.bodySize % WORD32, v.msg.bodySize % WORD32);
    DecCommutes(s.conn, u.msg.bodySize % WORD32, v.msg.bodySize % WORD32);
    assert s.chan.ackStore - {a} - {b} == s.chan.ackStore - {b} - {a};
  }

  /** Settling x before a list or after it is the same. */
  lemma {:induction false} AckMovesBack(s: Session, tags: seq<nat>, x: nat)
    requires x in s.chan.ackStore && Listed(s, [x] + tags)
    ensures Listed(SettleOne(s, x, false), tags) && Listed(s, tags) && x in SettleAll(s, tags, false).chan.ackStore
    ensures SettleAll(SettleOne(s, x, false), tags, false) == SettleOne(SettleAll(s, tags, false), x, false)
    decreases |tags|
  {
    ListedTail(s, x, tags);
    if tags != [] {
      var y, rest := tags[0], tags[1..];
      assert ([x] + tags)[1] == y;
      ListedTail(s, y, rest);
      assert tags == [y] + rest;
      ListedSwap(s, x, y, rest);
      AckMovesBack(SettleOne(s, y, false), rest, x);
      AcksCommute(s, x, y);
    }
  }

  lemma ListedTail(s: Session, x: nat, tags: seq<nat>)
    requires Listed(s, [x] + tags)
    ensures x in s.chan.ackStore && Listed(SettleOne(s, x, false), tags) && Listed(s, tags)
  {
    assert ([x] + tags)[0] == x;
    assert forall i :: 0 <= i < |tags| ==> tags[i] == ([x] + tags)[i + 1];
  }

  lemma ListedSwap(s: Session, x: nat, y: nat, rest: seq<nat>)
    requires Listed(s, [x] + ([y] + rest))
    ensures x != y && y in s.chan.ackStore && Listed(SettleOne(s, y, false), [x] + rest)
  {
    var all := [x] + ([y] + rest);
    assert all[0] == x && all[1] == y;
    assert forall i :: 0 <= i < |rest| ==> rest[i] == all[i + 2];
  }

  lemma {:induction false} SettleConcat(s: Session, a: seq<nat>, b: seq<nat>, requeue: bool)
    requires Listed(s, a + b)
    ensures Listed(s, a) && Listed(SettleAll(s, a, requeue), b)
    ensures SettleAll(s, a + b, requeue) == SettleAll(SettleAll(s, a, requeue), b, requeue)
    decreases |a|
  {
    if a == [] {
      assert a + b == b;
    } else {
      var x, rest := a[0], a[1..];
      assert a + b == [x] + (rest + b) && (a + b)[1..] == rest + b;
      ListedRest(s, x, rest + b, requeue);
      SettleConcat(SettleOne(s, x, requeue), rest, b, requeue);
      assert forall i :: 0 <= i < |a| ==> a[i] == (a + b)[i];
    }
  }

  lemma ListedRest(s: Session, x: nat, tags: seq<nat>, requeue: bool)
    requires Listed(s, [x] + tags)
    ensures x in s.chan.ackStore && Listed(SettleOne(s, x, requeue), tags)
  {
    assert ([x] + tags)[0] == x;
    assert forall i :: 0 <= i < |tags| ==> tags[i] == ([x] + tags)[i + 1];
  }

  /** A tag may be settled first wherever it stands. */
  lemma AckFirst(s: Session, a: seq<nat>, x: nat, b: seq<nat>)
    requires Listed(s, a + [x] + b) && x in s.chan.ackStore
    ensures Listed(SettleOne(s, x, false), a + b)
    ensures SettleAll(s, a + [x] + b, false) == SettleAll(SettleOne(s, x, false), a + b, false)
  {
    var s' := SettleOne(s, x, false);
    ListedWithout(s, a, x, b);
    SettleConcat(s, a + [x], b, false);
    SettleConcat(s, a, [x], false);
    AckMovesBack(s, a, x);
    assert SettleAll(SettleAll(s, a, false), [x], false) == SettleOne(SettleAll(s, a, false), x, false);
    SettleConcat(s', a, b, false);
  }

  lemma ListedWithout(s: Session, a: seq<nat>, x: nat, b: seq<nat>)
    requires Listed(s, a + [x] + b) && x in s.chan.ackStore
    ensures Listed(s, [x] + a) && Listed(s, a + [x]) && Listed(SettleOne(s, x, false), a + b)
  {
    var all := a + [x] + b;
    assert all[|a|] == x;
    assert forall i :: 0 <= i < |a| ==> a[i] == all[i];
    assert forall i :: 0 <= i < |b| ==> b[i] == all[|a| + 1 + i];
  }

  /** A multiple ack has one result, whatever order the map of unacknowledged messages is walked in. */
  lemma {:induction false} AckOrderIrrelevant(s: Session, a: seq<nat>, b: seq<nat>)
    requires Listed(s, a) && Listed(s, b) && Ascending.Elems(a) == Ascending.Elems(b)
    ensures SettleAll(s, a, false) == SettleAll(s, b, false)
    decreases |a|
  {
    if a == [] {
      Ascending.NoElems(a);
      Ascending.NoElems(b);
    } else {
      var x, rest := a[0], a[1..];
      assert x in Ascending.Elems(a);
      var i :| 0 <= i < |b| && b[i] == x;
      var b1, b2 := b[..i], b[i + 1..];
      assert b == b1 + [x] + b2;
      AckFirst(s, b1, x, b2);
      assert a == [x] + rest;
      ListedRest(s, x, rest, false);
      SameWithout(a, b, i);
      AckOrderIrrelevant(SettleOne(s, x, false), rest, b1 + b2);
    }
  }

  lemma SameWithout(a: seq<nat>, b: seq<nat>, i: nat)
    requires a != [] && i < |b| && b[i] == a[0] && Ascending.Elems(a) == Ascending.Elems(b)
    requires forall j, k :: 0 <= j < k < |a| ==> a[j] != a[k]
    requires forall j, k :: 0 <= j < k < |b| ==> b[j] != b[k]
    ensures Ascending.Elems(a[1..]) == Ascending.Elems(b[..i] + b[i + 1..])
  {
    assert a == [a[0]] + a[1..] && b == b[..i] + [b[i]] + b[i + 1..];
    forall t ensures t in a[1..] <==> t in b[..i] + b[i + 1..] {
      assert t in Ascending.Elems(a) <==> t in Ascending.Elems(b);
      assert t in a <==> t == a[0] || t in a[1..];
      assert t in b <==> t == b[i] || t in b[..i] + b[i + 1..];
    }
  }

  lemma SettleSnoc(s: Session, done: seq<nat>, t: nat, requeue: bool)
    requires Listed(s, done) && t in s.chan.ackStore && t !in done
    ensures Listed(s, done + [t]) && t in SettleAll(s, done, requeue).chan.ackStore
    ensures SettleAll(s, done + [t], requeue) == SettleOne(SettleAll(s, done, requeue), t, requeue)
  {
    assert Listed(s, done + [t]);
    SettleConcat(s, done, [t], requeue);
    var s1 := SettleAll(s, done, requeue);
    assert [t][0] in s1.chan.ackStore && [t][1..] == [];
  }

  class Channel {
    const rabbit: bool
    var queues: map<string, Queue>
    var connQos: Window
    var ackStore: map<nat, Unacked>
    var deliveryTag: nat
    var qos: Window
    var consumers: map<string, Consumer>

    function Value(): Session
      reads this
    {
      Session(rabbit, queues, connQos, Chan(ackStore, deliveryTag, qos, consumers))
    }

    constructor (rabbit: bool, queues: map<string, Queue>)
      ensures Value() == Session(rabbit, queues, Window(0, 0, 0, 0), Chan(map[], 0, Window(0, 0, 0, 0), map[]))
    {
      this.rabbit, this.queues := rabbit, queues;
      connQos, qos := Window(0, 0, 0, 0), Window(0, 0, 0, 0);
      ackStore, deliveryTag, consumers := map[], 0, map[];
    }

    /** ackMsg or rejectMsg, then decQosAndConsumerNext. */
    method SettleMsg(tag: nat, requeue: bool)
      requires tag in ackStore
      modifies this`queues, this`connQos, this`ackStore, this`qos, this`consumers
      ensures Value() == SettleOne(old(Value()), tag, requeue)
    {
      var u := ackStore[tag];
      ackStore := ackStore - {tag};
      if u.queue in queues {
        if requeue {
          queues := queues[u.queue := Requeue(queues[u.queue], u.msg)];
        } else {
          queues := queues[u.queue := AckMsg(queues[u.queue], u.msg)];
        }
      }
      var size := u.msg.bodySize % WORD32;
      qos := Dec(qos, 1, size);
      if u.cTag in consumers && rabbit {
        var c := consumers[u.cTag];
        consumers := consumers[u.cTag := c.(own := Dec(c.own, 1, size))];
      } else {
        connQos := Dec(connQos, 1, size);
      }
    }

    /** Walks the unacknowledged messages in any order; the result is that of settling the selected tags upwards. */
    method HandleAck(tag: nat, multiple: bool) returns (found: bool)
      modifies this`queues, this`connQos, this`ackStore, this`qos, this`consumers
      ensures found == (multiple || tag in old(ackStore))
      ensures !found ==> Value() == old(Value())
      ensures found && !multiple ==> Value() == SettleOne(old(Value()), tag, false)
      ensures multiple ==> Listed(old(Value()), Ascending.Sorted(Selected(old(Value()), tag)))
      ensures multiple ==> Value() == SettleAll(old(Value()), Ascending.Sorted(Selected(old(Value()), tag)), false)
    {
      if !multiple {
        found := tag in ackStore;
        if found { SettleMsg(tag, false); }
        return;
      }
      found := true;
      ghost var s := Value();
      ghost var done: seq<nat> := [];
      var todo := ackStore.Keys;
      while todo != {}
        invariant todo <= s.chan.ackStore.Keys
        invariant Listed(s, done) && Value() == SettleAll(s, done, false)
        invariant Ascending.Elems(done) == Selected(s, tag) - todo
        decreases todo
      {
        var t :| t in todo;
        if tag == 0 || t <= tag {
          assert t !in Ascending.Elems(done);
          SettleSnoc(s, done, t, false);
          SettleMsg(t, false);
          Ascending.ElemsConcat(done, [t]);
          done := done + [t];
        }
        todo := todo - {t};
      }
      SortedListed(s, Selected(s, tag));
      AckOrderIrrelevant(s, done, Ascending.Sorted(Selected(s, tag)));
    }

    /** Goes through all tags from the largest down and rejects those the request covers. */
    method HandleReject(tag: nat, multiple: bool, requeue: bool) returns (found: bool)
      modifies this`queues, this`connQos, this`ackStore, this`qos, this`consumers
      ensures found == Sessions.HandleReject(old(Value()), tag, multiple, requeue).Ok?
      ensures found ==> Value() == Sessions.HandleReject(old(Value()), tag, multiple, requeue).session
      ensures !found ==> Value() == old(Value())
    {
      if !multiple {
        found := tag in ackStore;
        if found { SettleMsg(tag, requeue); }
        return;
      }
      found := true;
      ghost var s := Value();
      var deliveryTags := Descending(ackStore.Keys);
      DescendingLists(ackStore.Keys);
      for i := 0 to |deliveryTags|
        invariant Listed(s, Chosen(deliveryTags[..i], tag))
        invariant Value() == SettleAll(s, Chosen(deliveryTags[..i], tag), requeue)
      {
        var t := deliveryTags[i];
        assert deliveryTags[..i + 1][..i] == deliveryTags[..i];
        ghost var done := Chosen(deliveryTags[..i], tag);
        ChosenFrom(deliveryTags[..i], tag);
        assert Chosen(deliveryTags[..i + 1], tag) == if tag == 0 || t <= tag then done + [t] else done;
        if tag == 0 || t <= tag {
          SettleSnoc(s, done, t, requeue);
          SettleMsg(t, requeue);
        }
      }
      assert deliveryTags[..|deliveryTags|] == deliveryTags;
      ChosenIsSelected(s, tag);
    }

    method Close()
      modifies this`queues, this`connQos, this`ackStore, this`qos, this`consumers
      ensures Value() == Sessions.Close(old(Value()))
    {
      consumers := map[];
      var _ := HandleReject(0, true, true);
    }

    method NextDeliveryTag() returns (tag: nat)
      modifies this`deliveryTag
      ensures tag == deliveryTag == old(deliveryTag) + 1
    {
      deliveryTag := deliveryTag + 1;
      tag := deliveryTag;
    }

    /** The delivery step shared by a consumer and basic.get: pop, number, remember, count. */
    method Retrieve(queue: string, noAck: bool, second: Window, cTag: string) returns (second': Window)
      requires queue in queues
      modifies this`queues, this`qos, this`deliveryTag, this`ackStore
      ensures (Value(), second') == Fetch(old(Value()), queue, noAck, second, cTag)
    {
      ghost var size := if queues[queue].ram == [] then 0 else queues[queue].ram[0].bodySize;
      ChargeShape([qos, second], size);
      var (q, ws, r) := PopQos(queues[queue], if noAck then [] else [qos, second]);
      second' := second;
      if !noAck {
        qos := ws[0];
        second' := ws[1];
      }
      if r.Some? {
        var tag := NextDeliveryTag();
        if noAck {
          q := q.(metrics := q.metrics.(total := q.metrics.total - 1));
        } else {
          ackStore := ackStore[tag := Unacked(cTag, r.value, queue)];
          q := q.(metrics := q.metrics.(unacked := q.metrics.unacked + 1));
        }
        q := q.(metrics := q.metrics.(ready := q.metrics.ready - 1));
      }
      queues := queues[queue := q];
    }

    method RetrieveAndSendMessage(cTag: string)
      modifies this
      ensures Value() == Deliver(old(Value()), cTag)
    {
      if cTag !in consumers { return; }
      var c := consumers[cTag];
      if c.stopped || c.queue !in queues { return; }
      var second := Retrieve(c.queue, c.noAck, if rabbit then c.own else connQos, cTag);
      if rabbit {
        consumers := consumers[cTag := c.(own := second)];
      } else {
        connQos := second;
      }
    }

    method BasicGet(queue: string, noAck: bool) returns (found: bool)
      modifies this
      ensures found == (queue in old(queues) && old(queues)[queue].active)
      ensures Value() == Get(old(Value()), queue, noAck)
    {
      found := queue in queues && queues[queue].active;
      if found {
        connQos := Retrieve(queue, noAck, connQos, "");
      }
    }
  }

  lemma DescendingElems(ts: set<nat>)
    ensures Ascending.Elems(Descending(ts)) == ts
  {
    DescendingLists(ts);
    var up := Ascending.Sorted(ts);
    Ascending.SortedProps(ts);
    forall t | t in ts ensures t in Descending(ts) {
      assert t in Ascending.Elems(up);
      var i :| 0 <= i < |up| && up[i] == t;
      assert Descending(ts)[|up| - 1 - i] == t;
    }
  }

  /** The tags of a list that a request covers. */
  function Chosen(xs: seq<nat>, tag: nat): seq<nat> {
    if xs == [] then [] else
    var t := xs[|xs| - 1];
    Chosen(xs[..|xs| - 1], tag) + if tag == 0 || t <= tag then [t] else []
  }

  lemma {:induction false} ChosenFrom(xs: seq<nat>, tag: nat)
    ensures forall x :: x in Chosen(xs, tag) <==> x in xs && (tag == 0 || x <= tag)
  {
    if xs != [] {
      ChosenFrom(xs[..|xs| - 1], tag);
      assert xs == xs[..|xs| - 1] + [xs[|xs| - 1]];
    }
  }

  lemma {:induction false} ChosenFalls(xs: seq<nat>, tag: nat)
    requires forall i, j :: 0 <= i < j < |xs| ==> xs[i] > xs[j]
    ensures forall i, j :: 0 <= i < j < |Chosen(xs, tag)| ==> Chosen(xs, tag)[i] > Chosen(xs, tag)[j]
  {
    if xs != [] {
      var front := xs[..|xs| - 1];
      ChosenFalls(front, tag);
      ChosenFrom(front, tag);
      forall i | 0 <= i < |Chosen(front, tag)| ensures Chosen(front, tag)[i] > xs[|xs| - 1] {
        assert Chosen(front, tag)[i] in front;
      }
    }
  }

  lemma ChosenIsSelected(s: Session, tag: nat)
    ensures Chosen(Descending(s.chan.ackStore.Keys), tag) == Descending(Selected(s, tag))
  {
    var all := Descending(s.chan.ackStore.Keys);
    DescendingLists(s.chan.ackStore.Keys);
    DescendingElems(s.chan.ackStore.Keys);
    ChosenFalls(all, tag);
    ChosenFrom(all, tag);
    forall x ensures x in Ascending.Elems(Chosen(all, tag)) <==> x in Selected(s, tag) {
      assert x in all <==> x in Ascending.Elems(all);
    }
    DescendingUnique(Chosen(all, tag), Selected(s, tag));
  }

  /** Only one falling list has a given set of elements. */
  lemma DescendingUnique(xs: seq<nat>, ts: set<nat>)
    requires Ascending.Elems(xs) == ts
    requires forall i, j :: 0 <= i < j < |xs| ==> xs[i] > xs[j]
    ensures Descending(ts) == xs
  {
    var up := seq(|xs|, i requires 0 <= i < |xs| => xs[|xs| - 1 - i]);
    forall x ensures x in Ascending.Elems(up) <==> x in Ascending.Elems(xs) {
      if x in xs {
        var i :| 0 <= i < |xs| && xs[i] == x;
        assert up[|xs| - 1 - i] == x;
      }
    }
    Ascending.SortedIs(up, ts);
  }
}
