/**
 msgstorage.go: writes are collected in three maps and flushed together. The
 functions describe the buffers and a flush; class MsgStorage does the flush the
 way the source does, building one batch by iterating over maps in any order.
 */
module MsgStorages {

  datatype Buffers<K(==), V> = Buffers(add: map<K, V>, update: map<K, V>, del: map<K, V>)

  datatype State<K(==), V> = State(db: map<K, V>, buffers: Buffers<K, V>)

  datatype Op<K(==), V> = Add(k: K, v: V) | Update(k: K, v: V) | Del(k: K, v: V) | Persist

  function Empty<K, V>(): Buffers<K, V> {
    Buffers(map[], map[], map[])
  }

  /** What the database holds after flushing now: a delete cancels the add and the updates that are still
      buffered for its key, and reaches the database only when there was no such add. */
  function Flushed<K, V>(s: State<K, V>): map<K, V> {
    var b := s.buffers;
    s.db + (b.add - b.del.Keys) + (b.update - b.del.Keys) - (b.del.Keys - b.add.Keys)
  }

  function Step<K, V>(s: State<K, V>, op: Op<K, V>): State<K, V> {
    var b := s.buffers;
    match op
    case Add(k, v) => s.(buffers := b.(add := b.add[k := v]))
    case Update(k, v) => s.(buffers := b.(update := b.update[k := v]))
    case Del(k, v) => s.(buffers := b.(del := b.del[k := v]))
    case Persist => State(Flushed(s), Empty())
  }

  /** The same operation written straight to the database. */
  function Direct<K, V>(db: map<K, V>, op: Op<K, V>): map<K, V> {
    match op
    case Add(k, v) => db[k := v]
    case Update(k, v) => db[k := v]
    case Del(k, _) => db - {k}
    case Persist => db
  }

  /** When buffering one more operation stays equivalent to writing it directly. */
  predicate Safe<K, V(==)>(s: State<K, V>, op: Op<K, V>) {
    var b := s.buffers;
    match op
    case Add(k, v) =>
      if k in b.del then k in s.db && s.db[k] == v else k in b.update ==> b.update[k] == v
    case Update(k, v) =>
      k in b.del ==> k in b.add && k in s.db && s.db[k] == v
    case Del(k, _) => !(k in b.add && k in s.db)
    case Persist => true
  }

  /** Buffering an operation and writing it directly agree after the next flush exactly in the safe cases. */
  lemma BufferedEqualsDirectIff<K, V>(s: State<K, V>, op: Op<K, V>)
    ensures Flushed(Step(s, op)) == Direct(Flushed(s), op) <==> Safe(s, op)
  {
    match op
    case Add(k, v) => AddIff(s, k, v);
    case Update(k, v) => UpdateIff(s, k, v);
    case Del(k, v) => DelIff(s, k, v);
    case Persist => assert Flushed(State(Flushed(s), Empty())) == Flushed(s);
  }

  /** Flushed, key by key. */
  lemma FlushedAt<K, V>(s: State<K, V>, k: K)
    ensures var b := s.buffers;
            if k in b.del then
              if k in b.add && k in s.db then k in Flushed(s) && Flushed(s)[k] == s.db[k] else k !in Flushed(s)
            else if k in b.update then k in Flushed(s) && Flushed(s)[k] == b.update[k]
            else if k in b.add then k in Flushed(s) && Flushed(s)[k] == b.add[k]
            else if k in s.db then k in Flushed(s) && Flushed(s)[k] == s.db[k]
            else k !in Flushed(s)
  {
  }

  lemma OthersUnchanged<K, V>(s: State<K, V>, op: Op<K, V>)
    requires !op.Persist?
    ensures forall j :: j != op.k ==> (j in Flushed(Step(s, op)) <==> j in Flushed(s))
    ensures forall j :: j != op.k && j in Flushed(s) ==> Flushed(Step(s, op))[j] == Flushed(s)[j]
  {
    forall j | j != op.k
      ensures j in Flushed(Step(s, op)) <==> j in Flushed(s)
      ensures j in Flushed(s) ==> Flushed(Step(s, op))[j] == Flushed(s)[j]
    {
      FlushedAt(s, j);
      FlushedAt(Step(s, op), j);
    }
  }

  lemma AddIff<K, V>(s: State<K, V>, k: K, v: V)
    ensures Flushed(Step(s, Add(k, v))) == Flushed(s)[k := v] <==> Safe(s, Add(k, v))
  {
    OthersUnchanged(s, Add(k, v));
    SetIff(s, Add(k, v));
  }

  lemma UpdateIff<K, V>(s: State<K, V>, k: K, v: V)
    ensures Flushed(Step(s, Update(k, v))) == Flushed(s)[k := v] <==> Safe(s, Update(k, v))
  {
    OthersUnchanged(s, Update(k, v));
    SetIff(s, Update(k, v));
  }

  lemma SetIff<K, V>(s: State<K, V>, op: Op<K, V>)
    requires op.Add? || op.Update?
    ensures var after := Flushed(Step(s, op));
            op.k in after && after[op.k] == op.v <==> Safe(s, op)
  {
    FlushedAt(Step(s, op), op.k);
  }

  lemma DelIff<K, V>(s: State<K, V>, k: K, v: V)
    ensures Flushed(Step(s, Del(k, v))) == Flushed(s) - {k} <==> Safe(s, Del(k, v))
  {
    OthersUnchanged(s, Del(k, v));
    FlushedAt(Step(s, Del(k, v)), k);
  }

  // ---------------------------------------------------------------- purging a queue

  /** PurgeQueue deletes the keys of one queue from the database and leaves the buffers alone. */
  function Purged<K, V>(s: State<K, V>, mine: K -> bool): State<K, V> {
    s.(db := map k | k in s.db && !mine(k) :: s.db[k])
  }

  /** A purge survives the next flush exactly when no add and no update of the queue is buffered, other than for
      a key whose delete is buffered too. */
  lemma PurgeSurvivesIff<K(!new), V>(s: State<K, V>, mine: K -> bool)
    ensures (forall k :: mine(k) ==> k !in Flushed(Purged(s, mine))) <==>
            (forall k :: mine(k) && (k in s.buffers.add || k in s.buffers.update) ==> k in s.buffers.del)
  {
    forall k | mine(k)
      ensures k in Flushed(Purged(s, mine)) <==>
                (k in s.buffers.add || k in s.buffers.update) && k !in s.buffers.del
    {
      FlushedAt(Purged(s, mine), k);
    }
  }

  /** A message that is purged before its write was flushed is in the database after the flush. */
  lemma PurgedMessageReturns<K(!new), V>(k: K, v: V, mine: K -> bool)
    requires mine(k)
    ensures k in Flushed(Purged(Step(State(map[], Empty()), Add(k, v)), mine))
  {
    FlushedAt(Purged(Step(State(map[], Empty()), Add(k, v)), mine), k);
  }

  // ---------------------------------------------------------------- whole histories

  function Run<K, V>(s: State<K, V>, ops: seq<Op<K, V>>): State<K, V>
    decreases |ops|
  {
    if ops == [] then s else Run(Step(s, ops[0]), ops[1..])
  }

  function RunDirect<K, V>(db: map<K, V>, ops: seq<Op<K, V>>): map<K, V>
    decreases |ops|
  {
    if ops == [] then db else RunDirect(Direct(db, ops[0]), ops[1..])
  }

  /** The life of a key as the queue drives it: added once, updated and finally deleted while it lives. */
  datatype Life<K(==)> = Life(live: set<K>, gone: set<K>)

  ghost predicate Lawful<K, V>(l: Life<K>, ops: seq<Op<K, V>>)
    decreases |ops|
  {
    ops == [] ||
    match ops[0]
    case Add(k, _) => k !in l.live && k !in l.gone && Lawful(l.(live := l.live + {k}), ops[1..])
    case Update(k, _) => k in l.live && Lawful(l, ops[1..])
    case Del(k, _) => k in l.live && Lawful(Life(l.live - {k}, l.gone + {k}), ops[1..])
    case Persist => Lawful(l, ops[1..])
  }

  /** Deleted keys are gone for good; buffered adds are not in the database yet; what is unknown is nowhere. */
  ghost predicate Tracks<K, V>(s: State<K, V>, l: Life<K>) {
    var b := s.buffers;
    && l.live !! l.gone
    && b.del.Keys <= l.gone
    && b.add.Keys !! s.db.Keys
    && b.add.Keys + b.update.Keys + s.db.Keys <= l.live + b.del.Keys
  }

  lemma TracksStep<K, V>(s: State<K, V>, l: Life<K>, op: Op<K, V>)
    requires Tracks(s, l)
    requires match op case Add(k, _) => k !in l.live && k !in l.gone case Persist => true case _ => op.k in l.live
    ensures Safe(s, op)
    ensures Tracks(Step(s, op),
                   match op case Add(k, _) => l.(live := l.live + {k})
                            case Del(k, _) => Life(l.live - {k}, l.gone + {k})
                            case _ => l)
  {
    if op.Persist? {
      forall k ensures k in Flushed(s) ==> k in l.live {
        FlushedAt(s, k);
      }
    }
  }

  /** Coalescing is invisible: for every interleaving of lawful writes with flushes, the database after a
      final flush is what writing each operation at once would have left. */
  lemma {:induction false} CoalescingEqualsDirect<K, V>(s: State<K, V>, l: Life<K>, ops: seq<Op<K, V>>)
    requires Tracks(s, l) && Lawful(l, ops)
    ensures Flushed(Run(s, ops)) == RunDirect(Flushed(s), ops)
    decreases |ops|
  {
    if ops != [] {
      var op := ops[0];
      TracksStep(s, l, op);
      BufferedEqualsDirectIff(s, op);
      match op
      case Add(k, _) => CoalescingEqualsDirect(Step(s, op), l.(live := l.live + {k}), ops[1..]);
      case Update(_, _) => CoalescingEqualsDirect(Step(s, op), l, ops[1..]);
      case Del(k, _) => CoalescingEqualsDirect(Step(s, op), Life(l.live - {k}, l.gone + {k}), ops[1..]);
      case Persist => CoalescingEqualsDirect(Step(s, op), l, ops[1..]);
    }
  }

  // ---------------------------------------------------------------- the flush itself

  datatype Operation<K, V> = OpSet(key: K, value: V) | OpDel(key: K)

  function Apply<K, V>(db: map<K, V>, batch: seq<Operation<K, V>>): map<K, V> {
    if batch == [] then db else
    var rest := Apply(db, batch[..|batch| - 1]);
    match batch[|batch| - 1]
    case OpSet(k, v) => rest[k := v]
    case OpDel(k) => rest - {k}
  }

  /** What a buffer is worth to the database. */
  function Marshalled<K, V, B>(m: map<K, V>, marshal: V -> B): map<K, B> {
    map k | k in m :: marshal(m[k])
  }

  /** The buffers hold messages and the database what Marshal made of them; marshal gives its bytes, whatever the
      error that persist ignores (StoredMessage.StoredBytes). */
  class MsgStorage<K(==), V(==), B(==)> {
    var db: map<K, B>
    var add: map<K, V>
    var update: map<K, V>
    var del: map<K, V>
    const marshal: V -> B

    ghost function Value(): State<K, B>
      reads this
    {
      State(db, Buffers(Marshalled(add, marshal), Marshalled(update, marshal), Marshalled(del, marshal)))
    }

    constructor (db: map<K, B>, marshal: V -> B)
      ensures this.marshal == marshal && Value() == State(db, Empty())
    {
      this.db := db;
      this.marshal := marshal;
      add, update, del := map[], map[], map[];
    }

    method Add(key: K, message: V)
      modifies this`add
      ensures Value() == Step(old(Value()), Op.Add(key, marshal(message)))
    {
      add := add[key := message];
      assert Marshalled(add, marshal) == Marshalled(old(add), marshal)[key := marshal(message)];
    }

    method Update(key: K, message: V)
      modifies this`update
      ensures Value() == Step(old(Value()), Op.Update(key, marshal(message)))
    {
      update := update[key := message];
      assert Marshalled(update, marshal) == Marshalled(old(update), marshal)[key := marshal(message)];
    }

    method Del(key: K, message: V)
      modifies this`del
      ensures Value() == Step(old(Value()), Op.Del(key, marshal(message)))
    {
      del := del[key := message];
      assert Marshalled(del, marshal) == Marshalled(old(del), marshal)[key := marshal(message)];
    }

    method PurgeQueue(mine: K -> bool)
      modifies this`db
      ensures Value() == Purged(old(Value()), mine)
    {
      var keys := set k | k in db && mine(k);
      while keys != {}
        invariant forall k :: k in keys ==> k in db && mine(k)
        invariant forall k :: k in old(db) && k !in db ==> mine(k)
        invariant forall k :: k in db ==> k in old(db) && db[k] == old(db)[k] && (mine(k) ==> k in keys)
        decreases keys
      {
        var key :| key in keys;
        db := db - {key};
        keys := keys - {key};
      }
      assert db == Purged(old(Value()), mine).db;
    }

    /** One flush, whatever order the maps are iterated in; added holds the messages whose write it commits. */
    method Persist() returns (added: map<K, V>)
      modifies this`db, this`add, this`update, this`del
      ensures Value() == Step(old(Value()), Op.Persist)
      ensures added == old(add) - old(del).Keys
    {
      var batch;
      batch, added := BuildBatch(add, update, del, marshal, db);
      db := Apply(db, batch);
      add, update, del := map[], map[], map[];
      assert Marshalled(add, marshal) == Marshalled(update, marshal) == Marshalled(del, marshal) == map[];
    }
  }

  /** The part of persist that works on its copies of the buffers. */
  method BuildBatch<K, V(==), B(==)>(add: map<K, V>, update: map<K, V>, del: map<K, V>, marshal: V -> B,
                                     ghost db: map<K, B>)
    returns (batch: seq<Operation<K, B>>, added: map<K, V>)
    ensures added == add - del.Keys
    ensures Apply(db, batch) == Flushed(State(db, Buffers(Marshalled(add, marshal), Marshalled(update, marshal),
                                                          Marshalled(del, marshal))))
  {
    var add', update', del' := CancelAdds(add, update, del);
    batch := [];
    batch := SetAll(batch, add', marshal, db);
    batch := SetAll(batch, update', marshal, db);
    batch := DelAll(batch, del'.Keys, db);
    added := add';
    MarshalledLess(add, del.Keys, marshal);
    MarshalledLess(update, del.Keys, marshal);
    MarshalledLess(del, add.Keys, marshal);
    assert del'.Keys == Marshalled(del, marshal).Keys - Marshalled(add, marshal).Keys;
  }

  lemma MarshalledLess<K, V, B>(m: map<K, V>, ks: set<K>, marshal: V -> B)
    ensures Marshalled(m - ks, marshal) == Marshalled(m, marshal) - ks && Marshalled(m, marshal).Keys == m.Keys
  {
  }

  /** The loop over del: adds and updates of a deleted key go, and so does a delete that met its add. */
  method CancelAdds<K, V(==)>(add: map<K, V>, update: map<K, V>, del: map<K, V>)
    returns (add': map<K, V>, update': map<K, V>, del': map<K, V>)
    ensures add' == add - del.Keys
    ensures update' == update - del.Keys
    ensures del' == del - add.Keys
  {
    add', update' := add, update;
    var rmDel, todo := {}, del.Keys;
    while todo != {}
      invariant todo <= del.Keys
      invariant add' == add - (del.Keys - todo)
      invariant update' == update - (del.Keys - todo)
      invariant rmDel == (del.Keys - todo) * add.Keys
      decreases todo
    {
      var delKey :| delKey in todo;
      if delKey in add' {
        add' := add' - {delKey};
        rmDel := rmDel + {delKey};
      }
      update' := update' - {delKey};
      todo := todo - {delKey};
    }
    del' := del - rmDel;
  }

  method SetAll<K, V, B(==)>(batch0: seq<Operation<K, B>>, m: map<K, V>, marshal: V -> B, ghost db: map<K, B>)
    returns (batch: seq<Operation<K, B>>)
    ensures Apply(db, batch) == Apply(db, batch0) + Marshalled(m, marshal)
  {
    batch := batch0;
    var todo := m.Keys;
    while todo != {}
      invariant todo <= m.Keys
      invariant Apply(db, batch) == Apply(db, batch0) + (Marshalled(m, marshal) - todo)
      decreases todo
    {
      var key :| key in todo;
      ghost var before := batch;
      var data := marshal(m[key]);
      batch := batch + [OpSet(key, data)];
      assert batch[..|batch| - 1] == before;
      todo := todo - {key};
    }
  }

  method DelAll<K, V(==)>(batch0: seq<Operation<K, V>>, keys: set<K>, ghost db: map<K, V>)
    returns (batch: seq<Operation<K, V>>)
    ensures Apply(db, batch) == Apply(db, batch0) - keys
  {
    batch := batch0;
    var todo := keys;
    while todo != {}
      invariant todo <= keys
      invariant Apply(db, batch) == Apply(db, batch0) - (keys - todo)
      decreases todo
    {
      var key :| key in todo;
      ghost var before := batch;
      batch := batch + [OpDel(key)];
      assert batch[..|batch| - 1] == before;
      todo := todo - {key};
    }
  }
}
