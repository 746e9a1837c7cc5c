/**
 safequeue.go: the sharded deque with its shard arrays updated in place. Every
 method is proved to perform the matching step of module Ring, so the sequence
 laws proved there hold of this code.
 */
module SafeQueues {
  import opened Options
  import Ring

  class SafeQueue<T> {
    var shards: seq<array<Option<T>>>
    const shardSize: nat
    var tailIdx: nat
    var tail: array<Option<T>>
    var tailPos: nat
    var headIdx: nat
    var head: array<Option<T>>
    var headPos: nat
    var length: int
    ghost var Repr: set<object>

    /** No two shards share storage, and the object owns them all. */
    ghost predicate Storage()
      reads this`shards, this`Repr
    {
      && this in Repr
      && 1 <= |shards|
      && (forall i :: 0 <= i < |shards| ==> shards[i] in Repr && shards[i].Length == shardSize)
      && (forall i, j :: 0 <= i < j < |shards| ==> shards[i] != shards[j])
    }

    /** head and tail alias the first and the last shard. */
    ghost predicate Shape()
      reads this
      ensures Shape() ==> this in Repr
    {
      && Storage()
      && headIdx == 0 && head == shards[0]
      && tailIdx == |shards| - 1 && tail == shards[tailIdx]
      && headPos < shardSize
      && tailPos < shardSize
    }

    ghost function AsRing(): (r: Ring.Ring<T>)
      requires Shape()
      reads this, Repr
      ensures Ring.Shaped(r)
    {
      FlatLength(shards, shardSize);
      Ring.Ring(shardSize, |shards|, Flat(shards), headPos, tailPos, length)
    }

    ghost predicate Valid()
      reads this, Repr
      ensures Valid() ==> this in Repr && Shape()
    {
      Shape() && Ring.Valid(AsRing())
    }

    ghost function Contents(): seq<T>
      requires Valid()
      reads this, Repr
    {
      Ring.Contents(AsRing())
    }

    static ghost function Flat(ss: seq<array<Option<T>>>): seq<Option<T>>
      reads ss
    {
      if ss == [] then [] else ss[0][..] + Flat(ss[1..])
    }

    static lemma {:induction false} FlatLength(ss: seq<array<Option<T>>>, size: nat)
      requires forall i :: 0 <= i < |ss| ==> ss[i].Length == size
      ensures |Flat(ss)| == Ring.Span(|ss|, size)
    {
      if ss != [] {
        FlatLength(ss[1..], size);
      }
    }

    static lemma {:induction false} FlatConcat(ss: seq<array<Option<T>>>, us: seq<array<Option<T>>>)
      ensures Flat(ss + us) == Flat(ss) + Flat(us)
    {
      if ss == [] {
        assert ss + us == us;
      } else {
        FlatConcat(ss[1..], us);
        assert (ss + us)[1..] == ss[1..] + us;
      }
    }

    static lemma FlatSingle(shard: array<Option<T>>)
      ensures Flat([shard]) == shard[..]
    {
      assert Flat([shard]) == shard[..] + Flat([shard][1..]);
    }

    /** The assignment shards[k][pos] = v, seen on the row of slots. */
    method SetSlot(k: nat, pos: nat, v: Option<T>)
      requires Storage() && k < |shards| && pos < shardSize
      modifies shards[k]
      ensures Ring.Span(k, shardSize) + pos < |old(Flat(shards))|
      ensures Flat(shards) == old(Flat(shards))[Ring.Span(k, shardSize) + pos := v]
    {
      var front, shard, back := shards[..k], shards[k], shards[k + 1..];
      assert shards == front + ([shard] + back);
      FlatAround(front, shard, back);
      FlatLength(front, shardSize);
      ghost var before := shard[..];
      shard[pos] := v;
      assert Flat(front) == old(Flat(front)) && Flat(back) == old(Flat(back));
      FlatAround(front, shard, back);
      assert shard[..] == before[pos := v];
      SetInside(Flat(front), before, Flat(back), pos, v);
    }

    static lemma FlatAround(front: seq<array<Option<T>>>, shard: array<Option<T>>, back: seq<array<Option<T>>>)
      ensures Flat(front + ([shard] + back)) == Flat(front) + (shard[..] + Flat(back))
    {
      FlatConcat(front, [shard] + back);
      FlatConcat([shard], back);
      FlatSingle(shard);
    }

    static lemma SetInside(a: seq<Option<T>>, s: seq<Option<T>>, b: seq<Option<T>>, pos: nat, v: Option<T>)
      requires pos < |s|
      ensures (a + (s + b))[|a| + pos := v] == a + (s[pos := v] + b)
    {
    }

    static method NewShard(size: nat) returns (shard: array<Option<T>>)
      ensures fresh(shard) && shard.Length == size && shard[..] == Ring.Blank(size)
    {
      shard := new Option<T>[size](_ => None);
    }

    constructor (size: nat)
      requires 1 <= size
      ensures Valid() && fresh(Repr)
      ensures AsRing() == Ring.New(size)
      ensures Contents() == []
    {
      shardSize := size;
      var first := NewShard(size);
      shards := [first];
      tailIdx, tail, tailPos := 0, first, 0;
      headIdx, head, headPos := 0, first, 0;
      length := 0;
      Repr := {this, first};
      new;
      FlatSingle(first);
    }

    method Push(item: T)
      requires Shape()
      modifies Repr
      ensures Shape() && fresh(Repr - old(Repr))
      ensures AsRing() == Ring.Push(old(AsRing()), item)
      ensures old(Valid()) ==> Valid() && Contents() == old(Contents()) + [item]
    {
      ghost var before := AsRing();
      PutTail(item);
      if Ring.Valid(before) { Ring.PushRefines(before, item); }
    }

    /** The slot that Push fills. */
    method PutTail(item: T)
      requires Shape()
      modifies Repr
      ensures Shape() && fresh(Repr - old(Repr))
      ensures AsRing() == Ring.Push(old(AsRing()), item)
    {
      ghost var before := AsRing();
      SetSlot(tailIdx, tailPos, Some(item));
      assert Flat(shards) == before.slots[Ring.TailAt(before) := Some(item)];
      tailPos := tailPos + 1;
      length := length + 1;
      if tailPos == shardSize {
        GrowTail();
      }
      assert AsRing() == Ring.Push(before, item);
    }

    /** The shard that Push opens behind a full one. */
    method GrowTail()
      requires Storage() && tailPos == shardSize
      requires headIdx == 0 && head == shards[0] && headPos < shardSize
      modifies this
      ensures Shape() && fresh(Repr - old(Repr)) && old(Repr) <= Repr
      ensures |shards| == old(|shards|) + 1 && tailPos == 0 && headPos == old(headPos) && length == old(length)
      ensures Flat(shards) == old(Flat(shards)) + Ring.Blank(shardSize)
    {
      tailPos := 0;
      tailIdx := |shards|;
      AppendShard();
      tail := shards[tailIdx];
    }

    method AppendShard()
      requires Storage()
      modifies this`shards, this`Repr
      ensures Storage() && fresh(Repr - old(Repr)) && old(Repr) <= Repr
      ensures |shards| == old(|shards|) + 1 && shards[0] == old(shards[0])
      ensures Flat(shards) == old(Flat(shards)) + Ring.Blank(shardSize)
    {
      var grown := NewShard(shardSize);
      FlatConcat(shards, [grown]);
      FlatSingle(grown);
      shards := shards + [grown];
      Repr := Repr + {grown};
    }

    method PushHead(item: T)
      requires Shape()
      modifies Repr
      ensures Shape() && fresh(Repr - old(Repr))
      ensures AsRing() == Ring.PushHead(old(AsRing()), item)
      ensures old(Valid()) ==> Valid() && Contents() == [item] + old(Contents())
    {
      ghost var before := AsRing();
      PutHead(item);
      if Ring.Valid(before) { Ring.PushHeadRefines(before, item); }
    }

    /** The slot that PushHead fills. */
    method PutHead(item: T)
      requires Shape()
      modifies Repr
      ensures Shape() && fresh(Repr - old(Repr))
      ensures AsRing() == Ring.PushHead(old(AsRing()), item)
    {
      if headPos == 0 {
        GrowHead();
      } else {
        headPos := headPos - 1;
      }
      SetSlot(headIdx, headPos, Some(item));
      length := length + 1;
    }

    /** The shard that PushHead opens before the first one, with headPos on its last slot. */
    method GrowHead()
      requires Shape()
      modifies this
      ensures Shape() && fresh(Repr - old(Repr)) && old(Repr) <= Repr
      ensures |shards| == old(|shards|) + 1 && headPos == shardSize - 1
      ensures tailPos == old(tailPos) && length == old(length)
      ensures Flat(shards) == Ring.Blank(shardSize) + old(Flat(shards))
    {
      PrependShard();
      tailIdx := tailIdx + 1;
      headPos := shardSize - 1;
      tail := shards[tailIdx];
      head := shards[headIdx];
    }

    method PrependShard()
      requires Storage()
      modifies this`shards, this`Repr
      ensures Storage() && fresh(Repr - old(Repr)) && old(Repr) <= Repr
      ensures |shards| == old(|shards|) + 1
      ensures Flat(shards) == Ring.Blank(shardSize) + old(Flat(shards))
    {
      var grown := NewShard(shardSize);
      FlatConcat([grown], shards);
      FlatSingle(grown);
      shards := [grown] + shards;
      Repr := Repr + {grown};
    }

    method DirtyPop() returns (item: Option<T>)
      requires Shape() && Ring.PopSafe(AsRing())
      modifies Repr
      ensures Shape() && fresh(Repr - old(Repr))
      ensures (AsRing(), item) == Ring.Pop(old(AsRing()))
    {
      ghost var before := AsRing();
      item := HeadItem();
      SetSlot(headIdx, headPos, None);
      assert Flat(shards) == before.slots[before.headPos := None];
      if item != None {
        headPos := headPos + 1;
        length := length - 1;
        if headPos == shardSize {
          DropHead();
        }
      }
      assert AsRing() == Ring.Pop(before).0;
    }

    method Pop() returns (item: Option<T>)
      requires Valid()
      modifies Repr
      ensures Valid() && fresh(Repr - old(Repr))
      ensures old(Contents()) == [] ==> item == None && Contents() == []
      ensures old(Contents()) != [] ==> item == Some(old(Contents())[0]) && Contents() == old(Contents())[1..]
    {
      Ring.PopRefines(AsRing());
      item := DirtyPop();
    }

    method Length() returns (n: nat)
      requires Valid()
      ensures n == |Contents()|
    {
      n := length;
    }

    /** DirtyPop lets go of the shard whose last slot it emptied. */
    method DropHead()
      requires Storage() && headPos == shardSize && tailPos < shardSize
      requires 2 <= |shards| && headIdx == 0 && tailIdx == |shards| - 1 && tail == shards[tailIdx]
      modifies this
      ensures Shape() && Repr == old(Repr)
      ensures |shards| == old(|shards|) - 1 && tailPos == old(tailPos) && headPos == 0 && length == old(length)
      ensures Flat(shards) == old(Flat(shards))[shardSize..]
    {
      shards := shards[headIdx + 1..];
      headPos := 0;
      tailIdx := tailIdx - 1;
      head := shards[headIdx];
    }

    method HeadItem() returns (item: Option<T>)
      requires Shape()
      ensures item == Ring.Head(AsRing())
      ensures Valid() ==> item == if Contents() == [] then None else Some(Contents()[0])
    {
      item := head[headPos];
    }

    /** Leaves headPos and tailPos as they were, so the result is a working deque only when they agree. */
    method DirtyPurge()
      requires Valid()
      modifies this
      ensures Shape() && fresh(Repr - {this})
      ensures AsRing() == Ring.Purge(old(AsRing()))
      ensures Valid() <==> old(headPos == tailPos)
      ensures Valid() ==> Contents() == []
    {
      ghost var before := AsRing();
      var first := NewShard(shardSize);
      FlatSingle(first);
      shards := [first];
      tailIdx := 0;
      tail := shards[tailIdx];
      headIdx := 0;
      head := shards[headIdx];
      length := 0;
      Repr := {this, first};
      Ring.PurgeValidIff(before);
    }
  }
}
