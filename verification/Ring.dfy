/**
 The sharded deque of safequeue.go seen as one row of slots: the shards laid end
 to end, the first live slot at headPos and the first free slot tailPos into the
 last shard. Class SafeQueue is proved to perform these steps on the heap.
 */
module Ring {
  import opened Options

  datatype Ring<T> = Ring(shardSize: nat, shards: nat, slots: seq<Option<T>>, headPos: nat, tailPos: nat, length: int)

  function Blank<T>(n: nat): seq<Option<T>> {
    seq(n, _ => None)
  }

  function New<T>(shardSize: nat): Ring<T> {
    Ring(shardSize, 1, Blank(shardSize), 0, 0, 0)
  }

  /** Slots in n shards, as a sum so that no proof needs a product. */
  function Span(n: nat, shardSize: nat): nat {
    if n == 0 then 0 else Span(n - 1, shardSize) + shardSize
  }

  ghost predicate Shaped<T>(r: Ring<T>) {
    && r.headPos < r.shardSize
    && r.tailPos < r.shardSize
    && 1 <= r.shards
    && |r.slots| == Span(r.shards, r.shardSize)
  }

  lemma {:induction false} SpanIsProduct(n: nat, shardSize: nat)
    ensures Span(n, shardSize) == n * shardSize
  {
    if n > 0 {
      SpanIsProduct(n - 1, shardSize);
      assert n * shardSize == (n - 1) * shardSize + shardSize;
    }
  }

  /** Index of the slot the next Push fills. */
  function TailAt<T>(r: Ring<T>): int {
    |r.slots| - r.shardSize + r.tailPos
  }

  /** The live window is exactly the slots between headPos and TailAt. */
  ghost predicate Valid<T>(r: Ring<T>) {
    && Shaped(r)
    && r.headPos <= TailAt(r)
    && r.length == TailAt(r) - r.headPos
    && (forall i :: 0 <= i < |r.slots| ==> (r.slots[i].Some? <==> r.headPos <= i < TailAt(r)))
  }

  ghost function Contents<T>(r: Ring<T>): (xs: seq<T>)
    requires Valid(r)
  {
    seq(r.length, i requires 0 <= i < r.length => r.slots[r.headPos + i].value)
  }

  /** The length field follows from the positions: tailIdx * shardSize + tailPos - headPos. */
  lemma LengthFromPositions<T>(r: Ring<T>)
    requires Valid(r)
    ensures r.length == (r.shards - 1) * r.shardSize + r.tailPos - r.headPos == |Contents(r)|
  {
    SpanIsProduct(r.shards - 1, r.shardSize);
  }

  function Push<T>(r: Ring<T>, x: T): Ring<T>
    requires Shaped(r)
  {
    var slots := r.slots[TailAt(r) := Some(x)];
    if r.tailPos + 1 == r.shardSize then
      r.(shards := r.shards + 1, slots := slots + Blank(r.shardSize), tailPos := 0, length := r.length + 1)
    else
      r.(slots := slots, tailPos := r.tailPos + 1, length := r.length + 1)
  }

  function PushHead<T>(r: Ring<T>, x: T): Ring<T>
    requires Shaped(r)
  {
    if r.headPos == 0 then
      r.(shards := r.shards + 1,
         slots := (Blank(r.shardSize) + r.slots)[r.shardSize - 1 := Some(x)],
         headPos := r.shardSize - 1,
         length := r.length + 1)
    else
      r.(slots := r.slots[r.headPos - 1 := Some(x)], headPos := r.headPos - 1, length := r.length + 1)
  }

  /** Popping the last slot of the only shard is an index panic in the source. */
  ghost predicate PopSafe<T>(r: Ring<T>) {
    && Shaped(r)
    && (r.slots[r.headPos].Some? && r.headPos + 1 == r.shardSize ==> 2 <= r.shards)
  }

  function Pop<T>(r: Ring<T>): (Ring<T>, Option<T>)
    requires PopSafe(r)
  {
    var item := r.slots[r.headPos];
    if item.None? then
      (r, None)
    else
      var slots := r.slots[r.headPos := None];
      if r.headPos + 1 == r.shardSize then
        (r.(shards := r.shards - 1, slots := slots[r.shardSize..], headPos := 0, length := r.length - 1), item)
      else
        (r.(slots := slots, headPos := r.headPos + 1, length := r.length - 1), item)
  }

  function Head<T>(r: Ring<T>): Option<T>
    requires Shaped(r)
  {
    r.slots[r.headPos]
  }

  /** DirtyPurge replaces the shards and the length but keeps both positions. */
  function Purge<T>(r: Ring<T>): Ring<T> {
    r.(shards := 1, slots := Blank(r.shardSize), length := 0)
  }

  lemma PushRefines<T>(r: Ring<T>, x: T)
    requires Valid(r)
    ensures Valid(Push(r, x)) && Contents(Push(r, x)) == Contents(r) + [x]
  {
    var r' := Push(r, x);
    assert TailAt(r') == TailAt(r) + 1;
  }

  lemma PushHeadRefines<T>(r: Ring<T>, x: T)
    requires Valid(r)
    ensures Valid(PushHead(r, x)) && Contents(PushHead(r, x)) == [x] + Contents(r)
  {
    var r' := PushHead(r, x);
    assert r'.slots[r'.headPos] == Some(x);
  }

  lemma PopRefines<T>(r: Ring<T>)
    requires Valid(r)
    ensures PopSafe(r) && Valid(Pop(r).0)
    ensures Contents(r) == [] ==> Pop(r) == (r, None)
    ensures Contents(r) != [] ==> Pop(r).1 == Some(Contents(r)[0]) && Contents(Pop(r).0) == Contents(r)[1..]
  {
    if r.length > 0 {
      assert Span(1, r.shardSize) == r.shardSize;
      var r' := Pop(r).0;
    }
  }

  lemma NewRefines<T>(shardSize: nat)
    requires 1 <= shardSize
    ensures Valid(New<T>(shardSize)) && Contents(New<T>(shardSize)) == []
  {
    assert Span(1, shardSize) == shardSize;
  }

  lemma HeadRefines<T>(r: Ring<T>)
    requires Valid(r)
    ensures Head(r) == if Contents(r) == [] then None else Some(Contents(r)[0])
  {
  }

  datatype Op<T> = OpPush(x: T) | OpPushHead(x: T) | OpPop | OpHead

  ghost function RunRing<T>(r: Ring<T>, ops: seq<Op<T>>): (res: (Ring<T>, seq<Option<T>>))
    requires Valid(r)
    decreases |ops|
  {
    if ops == [] then (r, []) else
    match ops[0]
    case OpPush(x) => PushRefines(r, x); RunRing(Push(r, x), ops[1..])
    case OpPushHead(x) => PushHeadRefines(r, x); RunRing(PushHead(r, x), ops[1..])
    case OpPop =>
      PopRefines(r);
      var rest := RunRing(Pop(r).0, ops[1..]);
      (rest.0, [Pop(r).1] + rest.1)
    case OpHead =>
      var rest := RunRing(r, ops[1..]);
      (rest.0, [Head(r)] + rest.1)
  }

  /** The same calls on a plain sequence. */
  function RunDeque<T>(xs: seq<T>, ops: seq<Op<T>>): (seq<T>, seq<Option<T>>)
    decreases |ops|
  {
    if ops == [] then (xs, []) else
    match ops[0]
    case OpPush(x) => RunDeque(xs + [x], ops[1..])
    case OpPushHead(x) => RunDeque([x] + xs, ops[1..])
    case OpPop =>
      var rest := RunDeque(if xs == [] then [] else xs[1..], ops[1..]);
      (rest.0, [if xs == [] then None else Some(xs[0])] + rest.1)
    case OpHead =>
      var rest := RunDeque(xs, ops[1..]);
      (rest.0, [if xs == [] then None else Some(xs[0])] + rest.1)
  }

  /** Every interleaving of Push, PushHead, Pop and HeadItem behaves as on a sequence. */
  lemma {:induction false} RunRefines<T>(r: Ring<T>, ops: seq<Op<T>>)
    requires Valid(r)
    ensures Valid(RunRing(r, ops).0)
    ensures (Contents(RunRing(r, ops).0), RunRing(r, ops).1) == RunDeque(Contents(r), ops)
    decreases |ops|
  {
    if ops != [] {
      match ops[0]
      case OpPush(x) => PushRefines(r, x); RunRefines(Push(r, x), ops[1..]);
      case OpPushHead(x) => PushHeadRefines(r, x); RunRefines(PushHead(r, x), ops[1..]);
      case OpPop => PopRefines(r); RunRefines(Pop(r).0, ops[1..]);
      case OpHead => RunRefines(r, ops[1..]);
    }
  }

  /** Purging gives a working empty deque exactly when the two positions coincide. */
  lemma PurgeValidIff<T>(r: Ring<T>)
    requires Valid(r)
    ensures Valid(Purge(r)) <==> r.headPos == r.tailPos
    ensures r.headPos == r.tailPos ==> Contents(Purge(r)) == []
  {
    assert Span(1, r.shardSize) == r.shardSize;
    assert TailAt(Purge(r)) == r.tailPos;
  }

  /** A deque from which everything was popped is purged well, wherever its positions are. */
  lemma EmptiedPurges<T>(r: Ring<T>)
    requires Valid(r) && Contents(r) == []
    ensures r.headPos == r.tailPos
  {
    SpanGrows(r.shards, r.shardSize);
    assert Span(1, r.shardSize) == r.shardSize;
  }

  lemma {:induction false} SpanGrows(n: nat, shardSize: nat)
    requires n >= 1
    ensures Span(n, shardSize) >= if n == 1 then shardSize else shardSize + shardSize
  {
    if n > 1 { SpanGrows(n - 1, shardSize); }
  }

  /** What pops and looks at the head return, or None when the source would panic. */
  ghost function Results<T>(r: Ring<T>, ops: seq<Op<T>>): Option<seq<Option<T>>>
    decreases |ops|
  {
    if ops == [] then Some([])
    else if !PopSafe(r) then None
    else match ops[0]
      case OpPush(x) => Results(Push(r, x), ops[1..])
      case OpPushHead(x) => Results(PushHead(r, x), ops[1..])
      case OpPop => Returned(Pop(r).1, Results(Pop(r).0, ops[1..]))
      case OpHead => Returned(Head(r), Results(r, ops[1..]))
  }

  function Returned<T>(x: Option<T>, more: Option<seq<Option<T>>>): Option<seq<Option<T>>> {
    if more.None? then None else Some([x] + more.value)
  }

  // ---------------------------------------------------------------- a purge with the head before the tail

  /** The same calls on a stack that only PushHead reaches. */
  function RunStack<T>(st: seq<T>, ops: seq<Op<T>>): seq<Option<T>>
    decreases |ops|
  {
    if ops == [] then [] else
    var top := if st == [] then None else Some(st[0]);
    match ops[0]
    case OpPush(_) => RunStack(st, ops[1..])
    case OpPushHead(x) => RunStack([x] + st, ops[1..])
    case OpPop => [top] + RunStack(if st == [] then [] else st[1..], ops[1..])
    case OpHead => [top] + RunStack(st, ops[1..])
  }

  /** Between the head and the tail lies an empty slot that no call fills; before it, the stack. */
  ghost predicate Stuck<T>(r: Ring<T>, st: seq<T>) {
    && Shaped(r) && r.headPos + |st| < TailAt(r) && r.slots[r.headPos + |st|].None?
    && forall i :: 0 <= i < |st| ==> r.slots[r.headPos + i] == Some(st[i])
  }

  lemma StuckPush<T>(r: Ring<T>, st: seq<T>, x: T)
    requires Stuck(r, st)
    ensures Stuck(Push(r, x), st)
  {
    assert TailAt(Push(r, x)) == TailAt(r) + 1;
  }

  lemma StuckPushHead<T>(r: Ring<T>, st: seq<T>, x: T)
    requires Stuck(r, st)
    ensures Stuck(PushHead(r, x), [x] + st)
  {
    var r' := PushHead(r, x);
    assert r'.slots[r'.headPos] == Some(x);
  }

  lemma StuckPop<T>(r: Ring<T>, st: seq<T>)
    requires Stuck(r, st)
    ensures PopSafe(r)
    ensures if st == [] then Pop(r) == (r, None) else Pop(r).1 == Some(st[0]) && Stuck(Pop(r).0, st[1..])
  {
    assert Span(1, r.shardSize) == r.shardSize;
    if st != [] { assert r.slots[r.headPos + 0] == Some(st[0]); }
  }

  lemma {:induction false} StuckRuns<T>(r: Ring<T>, st: seq<T>, ops: seq<Op<T>>)
    requires Stuck(r, st)
    ensures Results(r, ops) == Some(RunStack(st, ops))
    decreases |ops|
  {
    if ops != [] {
      StuckPop(r, st);
      match ops[0]
      case OpPush(x) =>
        StuckPush(r, st, x);
        StuckRuns(Push(r, x), st, ops[1..]);
      case OpPushHead(x) =>
        StuckPushHead(r, st, x);
        StuckRuns(PushHead(r, x), [x] + st, ops[1..]);
      case OpPop => StuckRuns(Pop(r).0, if st == [] then [] else st[1..], ops[1..]);
      case OpHead => StuckRuns(r, st, ops[1..]);
    }
  }

  /** A purge of a queue whose head lies before its tail in their shards loses every message pushed later. Whatever
      the calls, they never panic, and pops return what PushHead put there, last in first out, and nothing else. */
  lemma PurgeStarves<T>(r: Ring<T>, ops: seq<Op<T>>)
    requires Valid(r) && r.headPos < r.tailPos
    ensures Results(Purge(r), ops) == Some(RunStack([], ops))
  {
    assert Span(1, r.shardSize) == r.shardSize;
    StuckRuns(Purge(r), [], ops);
  }

  // ---------------------------------------------------------------- a purge with the head behind the tail

  /** r is the valid deque c, but for what lies before the head and for a length that counts too many. */
  ghost predicate Shadows<T>(r: Ring<T>, c: Ring<T>, lost: nat) {
    && Valid(c) && r == c.(slots := r.slots, length := c.length + lost)
    && |r.slots| == |c.slots| && r.slots[c.headPos..] == c.slots[c.headPos..]
  }

  lemma ShadowHead<T>(r: Ring<T>, c: Ring<T>, lost: nat)
    requires Shadows(r, c, lost)
    ensures PopSafe(r) && PopSafe(c) && r.slots[r.headPos] == c.slots[c.headPos]
  {
    PopRefines(c);
    assert r.slots[c.headPos] == r.slots[c.headPos..][0] && c.slots[c.headPos] == c.slots[c.headPos..][0];
  }

  lemma ShadowPush<T>(r: Ring<T>, c: Ring<T>, lost: nat, x: T)
    requires Shadows(r, c, lost)
    ensures Shaped(r) && Shadows(Push(r, x), Push(c, x), lost)
  {
    PushRefines(c, x);
    var h, t := c.headPos, TailAt(c);
    assert r.slots[t := Some(x)][h..] == r.slots[h..][t - h := Some(x)];
    assert c.slots[t := Some(x)][h..] == c.slots[h..][t - h := Some(x)];
    assert (r.slots[t := Some(x)] + Blank(c.shardSize))[h..] == r.slots[t := Some(x)][h..] + Blank(c.shardSize);
    assert (c.slots[t := Some(x)] + Blank(c.shardSize))[h..] == c.slots[t := Some(x)][h..] + Blank(c.shardSize);
  }

  lemma ShadowPushHead<T>(r: Ring<T>, c: Ring<T>, lost: nat, x: T)
    requires Shadows(r, c, lost)
    ensures Shaped(r) && Shadows(PushHead(r, x), PushHead(c, x), lost)
  {
    PushHeadRefines(c, x);
    var h, n := c.headPos, c.shardSize;
    if h == 0 {
      assert r.slots[0..] == r.slots && c.slots[0..] == c.slots;
    } else {
      assert r.slots[h - 1 := Some(x)][h - 1..] == [Some(x)] + r.slots[h..];
      assert c.slots[h - 1 := Some(x)][h - 1..] == [Some(x)] + c.slots[h..];
    }
  }

  lemma ShadowPop<T>(r: Ring<T>, c: Ring<T>, lost: nat)
    requires Shadows(r, c, lost)
    ensures PopSafe(r) && PopSafe(c) && Pop(r).1 == Pop(c).1 && Shadows(Pop(r).0, Pop(c).0, lost)
  {
    ShadowHead(r, c, lost);
    PopRefines(c);
    var h, n := c.headPos, c.shardSize;
    if c.slots[h].Some? {
      assert h < TailAt(c) && Contents(c) != [];
      assert r.slots[h := None][h + 1..] == r.slots[h..][1..];
      assert c.slots[h := None][h + 1..] == c.slots[h..][1..];
      if h + 1 == n {
        assert r.slots[h := None][n..][0..] == r.slots[h := None][n..];
        assert c.slots[h := None][n..][0..] == c.slots[h := None][n..];
      }
    }
  }

  /** Such a deque answers every call as the valid one does. */
  lemma {:induction false} ShadowRuns<T>(r: Ring<T>, c: Ring<T>, lost: nat, ops: seq<Op<T>>)
    requires Shadows(r, c, lost)
    ensures Results(r, ops) == Some(RunRing(c, ops).1)
    decreases |ops|
  {
    if ops != [] {
      ShadowHead(r, c, lost);
      match ops[0]
      case OpPush(x) =>
        PushRefines(c, x);
        ShadowPush(r, c, lost, x);
        ShadowRuns(Push(r, x), Push(c, x), lost, ops[1..]);
      case OpPushHead(x) =>
        PushHeadRefines(c, x);
        ShadowPushHead(r, c, lost, x);
        ShadowRuns(PushHead(r, x), PushHead(c, x), lost, ops[1..]);
      case OpPop =>
        PopRefines(c);
        ShadowPop(r, c, lost);
        ShadowRuns(Pop(r).0, Pop(c).0, lost, ops[1..]);
      case OpHead => ShadowRuns(r, c, lost, ops[1..]);
    }
  }

  /** A purged deque after n pushes that have not reached the head position yet. */
  ghost predicate Swallowing<T>(r: Ring<T>, s: Ring<T>, n: nat) {
    && s == r.(shards := 1, slots := s.slots, tailPos := r.tailPos + n, length := n)
    && |s.slots| == r.shardSize && s.tailPos <= r.headPos < r.shardSize
    && (forall i :: r.headPos <= i < r.shardSize ==> s.slots[i].None?)
  }

  lemma SwallowOne<T>(r: Ring<T>, s: Ring<T>, n: nat, x: T)
    requires Swallowing(r, s, n) && s.tailPos < r.headPos
    ensures Shaped(s) && Head(s) == None && Swallowing(r, Push(s, x), n + 1)
  {
    assert Span(1, r.shardSize) == r.shardSize;
  }

  ghost function PushAll<T>(s: Ring<T>, xs: seq<T>): Ring<T>
    decreases |xs|
  {
    if xs == [] || !Shaped(s) then s else PushAll(Push(s, xs[0]), xs[1..])
  }

  lemma {:induction false} SwallowAll<T>(r: Ring<T>, s: Ring<T>, n: nat, xs: seq<T>)
    requires Swallowing(r, s, n) && s.tailPos + |xs| <= r.headPos
    ensures Swallowing(r, PushAll(s, xs), n + |xs|)
    decreases |xs|
  {
    if xs != [] {
      SwallowOne(r, s, n, xs[0]);
      SwallowAll(r, Push(s, xs[0]), n + 1, xs[1..]);
    }
  }

  /** After a purge with headPos > tailPos exactly the first headPos - tailPos pushes are lost: while they last
      the head stays empty, and from then on the deque answers every interleaving of calls as an empty one
      would. Only its length goes on counting the lost ones. */
  lemma PurgeSwallows<T>(r: Ring<T>, xs: seq<T>, ops: seq<Op<T>>)
    requires Valid(r) && r.headPos > r.tailPos && |xs| <= r.headPos - r.tailPos
    ensures Shaped(PushAll(Purge(r), xs)) && Head(PushAll(Purge(r), xs)) == None
    ensures PushAll(Purge(r), xs).length == |xs|
    ensures |xs| == r.headPos - r.tailPos ==> Results(PushAll(Purge(r), xs), ops) == Some(RunDeque([], ops).1)
  {
    assert Span(1, r.shardSize) == r.shardSize;
    SwallowAll(r, Purge(r), 0, xs);
    var s := PushAll(Purge(r), xs);
    if |xs| == r.headPos - r.tailPos {
      var c := s.(slots := Blank(r.shardSize), length := 0);
      assert Valid(c) && Contents(c) == [];
      assert s.slots[c.headPos..] == c.slots[c.headPos..];
      ShadowRuns(s, c, |xs|, ops);
      RunRefines(c, ops);
    }
  }
}
