/**
 qos.go: the prefetch window of a channel, a connection or a consumer, and the
 chain of windows a delivery has to pass (the loop of PopQos in queue.go).
 */
module Qos {
  import opened Words

  datatype Window = Window(prefetchCount: nat, currentCount: nat, prefetchSize: nat, currentSize: nat)

  ghost predicate Fits(w: Window) {
    && w.prefetchCount < WORD16 && w.currentCount < WORD16
    && w.prefetchSize < WORD32 && w.currentSize < WORD32
  }

  predicate IsActive(w: Window) {
    w.prefetchCount != 0 || w.prefetchSize != 0
  }

  /** The sums are taken in uint16 and uint32, so both wrap. */
  function Inc(w: Window, count: nat, size: nat): (Window, bool) {
    var newCount := (w.currentCount + count) % WORD16;
    var newSize := (w.currentSize + size) % WORD32;
    if (w.prefetchCount == 0 || newCount <= w.prefetchCount) && (w.prefetchSize == 0 || newSize <= w.prefetchSize)
    then (w.(currentCount := newCount, currentSize := newSize), true)
    else (w, false)
  }

  function Dec(w: Window, count: nat, size: nat): Window {
    w.(currentCount := if w.currentCount < count then 0 else w.currentCount - count,
       currentSize := if w.currentSize < size then 0 else w.currentSize - size)
  }

  /** The windows are charged in turn; a refusal stops the loop and undoes nothing. */
  function Charge(ws: seq<Window>, size: nat): (seq<Window>, bool) {
    if ws == [] then ([], true)
    else if !IsActive(ws[0]) then
      var rest := Charge(ws[1..], size);
      ([ws[0]] + rest.0, rest.1)
    else
      var (w, ok) := Inc(ws[0], 1, size % WORD32);
      if !ok then (ws, false) else
      var rest := Charge(ws[1..], size);
      ([w] + rest.0, rest.1)
  }

  /** Index of the first active window, or the length when there is none. */
  function FirstActive(ws: seq<Window>): nat {
    if ws == [] || IsActive(ws[0]) then 0 else 1 + FirstActive(ws[1..])
  }

  lemma {:induction false} FirstActiveIs(ws: seq<Window>)
    ensures FirstActive(ws) <= |ws|
    ensures forall i :: 0 <= i < FirstActive(ws) ==> !IsActive(ws[i])
    ensures FirstActive(ws) < |ws| ==> IsActive(ws[FirstActive(ws)])
  {
    if ws != [] && !IsActive(ws[0]) {
      FirstActiveIs(ws[1..]);
      forall i | 0 <= i < FirstActive(ws) ensures !IsActive(ws[i]) {
        if i > 0 { assert ws[i] == ws[1..][i - 1]; }
      }
    }
  }

  /** Within its 16-bit range an accepted delivery is counted exactly once and never exceeds the window. */
  lemma IncCounts(w: Window, size: nat)
    requires Fits(w) && 0 < w.prefetchCount && w.currentCount <= w.prefetchCount
    ensures Inc(w, 1, size).0.currentCount <= w.prefetchCount
    ensures w.prefetchCount < WORD16 - 1 && Inc(w, 1, size).1 ==>
              Inc(w, 1, size).0.currentCount == w.currentCount + 1
  {
  }

  /** A full window refuses, except the largest one: there the count wraps to 0 and the window opens again. */
  lemma FullWindowRefusesIff(w: Window, size: nat)
    requires Fits(w) && 0 < w.prefetchCount == w.currentCount
    ensures !Inc(w, 1, size).1 <==>
              w.prefetchCount < WORD16 - 1
              || (w.prefetchSize != 0 && (w.currentSize + size) % WORD32 > w.prefetchSize)
  {
  }

  /** n deliveries of empty messages, one after the other. */
  function Deliveries(w: Window, n: nat): (Window, bool)
    requires n > 0
  {
    if n == 1 then Inc(w, 1, 0) else Inc(Deliveries(w, n - 1).0, 1, 0)
  }

  lemma {:induction false} WindowFills(w: Window, n: nat)
    requires w == Window(WORD16 - 1, 0, 0, 0) && 0 < n < WORD16
    ensures Deliveries(w, n) == (w.(currentCount := n), true)
  {
    if n > 1 { WindowFills(w, n - 1); }
  }

  /** The largest window never closes: after 65535 unacknowledged deliveries it takes the next one and counts 0. */
  lemma LargestWindowReopens()
    ensures var w := Window(WORD16 - 1, 0, 0, 0);
            && Deliveries(w, WORD16 - 1).0.currentCount == WORD16 - 1
            && Deliveries(w, WORD16) == (w, true)
  {
    WindowFills(Window(WORD16 - 1, 0, 0, 0), WORD16 - 1);
  }

  lemma {:induction false} ChargeShape(ws: seq<Window>, size: nat)
    ensures |Charge(ws, size).0| == |ws|
    ensures forall i :: 0 <= i < |ws| ==>
              var w := Charge(ws, size).0[i];
              || w == ws[i]
              || (IsActive(ws[i]) && Inc(ws[i], 1, size % WORD32).1 && w == Inc(ws[i], 1, size % WORD32).0)
    ensures Charge(ws, size).1 ==> forall i :: 0 <= i < |ws| && IsActive(ws[i]) ==>
              Inc(ws[i], 1, size % WORD32).1 && Charge(ws, size).0[i] == Inc(ws[i], 1, size % WORD32).0
  {
    if ws != [] {
      ChargeShape(ws[1..], size);
      forall i | 0 <= i < |ws| ensures i > 0 ==> ws[i] == ws[1..][i - 1] {}
    }
  }

  /** A refused delivery leaves every window as it was exactly when the first active window is the one
      that refuses; otherwise the windows before it stay charged for a message nobody received. */
  lemma {:induction false} RefusalCleanIff(ws: seq<Window>, size: nat)
    requires !Charge(ws, size).1
    requires forall i :: 0 <= i < |ws| ==> Fits(ws[i])
    ensures FirstActive(ws) < |ws|
    ensures Charge(ws, size).0 == ws <==> !Inc(ws[FirstActive(ws)], 1, size % WORD32).1
  {
    if IsActive(ws[0]) {
      var (w, ok) := Inc(ws[0], 1, size % WORD32);
      if ok {
        assert w.currentCount != ws[0].currentCount;
        assert Charge(ws, size).0[0] == w;
      }
    } else {
      RefusalCleanIff(ws[1..], size);
      assert ws == [ws[0]] + ws[1..];
      assert Charge(ws, size).0[1..] == Charge(ws[1..], size).0;
    }
  }

  class AmqpQos {
    var prefetchCount: nat
    var currentCount: nat
    var prefetchSize: nat
    var currentSize: nat

    function Value(): Window
      reads this
    {
      Window(prefetchCount, currentCount, prefetchSize, currentSize)
    }

    constructor (prefetchCount: nat, prefetchSize: nat)
      requires prefetchCount < WORD16 && prefetchSize < WORD32
      ensures Value() == Window(prefetchCount, 0, prefetchSize, 0)
    {
      this.prefetchCount, this.prefetchSize := prefetchCount, prefetchSize;
      currentCount, currentSize := 0, 0;
    }

    /** The limits change; what is already counted stays counted. */
    method Update(prefetchCount: nat, prefetchSize: nat)
      modifies this
      ensures Value() == old(Value()).(prefetchCount := prefetchCount, prefetchSize := prefetchSize)
    {
      this.prefetchCount := prefetchCount;
      this.prefetchSize := prefetchSize;
    }

    method TryInc(count: nat, size: nat) returns (ok: bool)
      modifies this
      ensures (Value(), ok) == Inc(old(Value()), count, size)
    {
      var newCount := (currentCount + count) % WORD16;
      var newSize := (currentSize + size) % WORD32;
      ok := (prefetchCount == 0 || newCount <= prefetchCount) && (prefetchSize == 0 || newSize <= prefetchSize);
      if ok {
        currentCount := newCount;
        currentSize := newSize;
      }
    }

    method Discharge(count: nat, size: nat)
      modifies this
      ensures Value() == Dec(old(Value()), count, size)
    {
      if currentCount < count { currentCount := 0; } else { currentCount := currentCount - count; }
      if currentSize < size { currentSize := 0; } else { currentSize := currentSize - size; }
    }
  }

  /** The windows of one list are different objects and currently hold the values ws. */
  ghost predicate Holds(qs: seq<AmqpQos>, ws: seq<Window>)
    reads qs
  {
    && |qs| == |ws|
    && (forall i, j :: 0 <= i < j < |qs| ==> qs[i] != qs[j])
    && (forall i :: 0 <= i < |qs| ==> qs[i].Value() == ws[i])
  }

  /** Charge from the i-th window on, updating the list in place. */
  function ChargeFrom(ws: seq<Window>, i: nat, size: nat): (seq<Window>, bool)
    requires i <= |ws|
    decreases |ws| - i
  {
    if i == |ws| then (ws, true)
    else if !IsActive(ws[i]) then ChargeFrom(ws, i + 1, size)
    else
      var (w, ok) := Inc(ws[i], 1, size % WORD32);
      if !ok then (ws, false) else ChargeFrom(ws[i := w], i + 1, size)
  }

  lemma {:induction false} ChargeFromIs(ws: seq<Window>, i: nat, size: nat)
    requires i <= |ws|
    ensures ChargeFrom(ws, i, size).0 == ws[..i] + Charge(ws[i..], size).0
    ensures ChargeFrom(ws, i, size).1 == Charge(ws[i..], size).1
    decreases |ws| - i
  {
    if i < |ws| {
      assert ws[i..][1..] == ws[i + 1..];
      assert ws == ws[..i] + ws[i..];
      if !IsActive(ws[i]) {
        ChargeFromIs(ws, i + 1, size);
        assert ws[..i + 1] == ws[..i] + [ws[i]];
      } else {
        var w := Inc(ws[i], 1, size % WORD32).0;
        ChargeFromIs(ws[i := w], i + 1, size);
        assert ws[i := w][..i + 1] == ws[..i] + [w];
        assert ws[i := w][i + 1..] == ws[i + 1..];
      }
    }
  }

  lemma ChargeFromFirst(ws: seq<Window>, size: nat)
    ensures ChargeFrom(ws, 0, size) == Charge(ws, size)
  {
    ChargeFromIs(ws, 0, size);
    assert ws[0..] == ws && ws[..0] + Charge(ws, size).0 == Charge(ws, size).0;
  }

  /** The loop over qosList inside PopQos. */
  method ChargeAll(qs: seq<AmqpQos>, size: nat, ghost ws: seq<Window>) returns (allowed: bool)
    requires Holds(qs, ws)
    modifies qs
    ensures Holds(qs, Charge(ws, size).0) && allowed == Charge(ws, size).1
  {
    allowed := true;
    ChargeFromFirst(ws, size);
    ghost var now := ws;
    for i := 0 to |qs|
      invariant allowed
      invariant Holds(qs, now)
      invariant ChargeFrom(now, i, size) == ChargeFrom(ws, 0, size)
    {
      if IsActive(qs[i].Value()) {
        allowed := qs[i].TryInc(1, size % WORD32);
        now := now[i := Inc(now[i], 1, size % WORD32).0];
        if !allowed {
          return;
        }
      }
    }
  }
}
