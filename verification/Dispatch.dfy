/**
 Round-robin dispatch and the consumer list of a queue (queue/queue.go): the wake-up loop
 of Start, AddConsumer and RemoveConsumer.
 */
module Dispatch {
  import opened Options

  datatype State = State(
    consumers: seq<string>,
    current: nat,
    exclusive: bool,
    wasConsumed: bool,
    active: bool,
    autoDelete: bool)

  /** The cursor is in range, an exclusive consumer is alone, and who consumes is remembered. */
  ghost predicate Inv(s: State) {
    && s.current < (if s.consumers == [] then 1 else |s.consumers|)
    && (s.exclusive ==> |s.consumers| == 1)
    && (s.consumers != [] ==> s.wasConsumed)
  }

  /** The position k places after a cursor, around n places. */
  function Rot(n: nat, cur: nat, k: nat): (p: nat)
    requires cur < n && k <= n
    ensures p < n
  {
    if cur + k < n then cur + k else cur + k - n
  }

  lemma RotStep(n: nat, cur: nat, k: nat)
    requires cur < n && k < n
    ensures (Rot(n, cur, k) + 1) % n == Rot(n, cur, k + 1)
  {
    if Rot(n, cur, k) + 1 == n { assert n % n == 0; }
  }

  /** accepts[i] tells whether consumer i takes the message when asked. The least k from a given one on whose
      consumer accepts, or n + 1 when none does. */
  function Winner(accepts: seq<bool>, cur: nat, k: nat): (w: nat)
    requires cur < |accepts| && 1 <= k <= |accepts| + 1
    ensures k <= w <= |accepts| + 1
    ensures w <= |accepts| ==> accepts[Rot(|accepts|, cur, w)]
    ensures forall j :: k <= j < w ==> !accepts[Rot(|accepts|, cur, j)]
    decreases |accepts| + 1 - k
  {
    if k == |accepts| + 1 then k
    else if accepts[Rot(|accepts|, cur, k)] then k
    else Winner(accepts, cur, k + 1)
  }

  datatype Outcome = Outcome(served: Option<nat>, current: nat)

  /** What one wake-up does to an active queue: the nearest accepting consumer after the cursor is served, and
      the cursor moves to it; with none, the cursor comes back to where it was. */
  function Served(accepts: seq<bool>, cur: nat): (o: Outcome)
    requires cur < |accepts|
    ensures o.current < |accepts|
    ensures o.served.Some? ==> o.served.value == o.current && accepts[o.current]
    ensures o.served.None? <==> forall i :: 0 <= i < |accepts| ==> !accepts[i]
  {
    var n := |accepts|;
    var w := Winner(accepts, cur, 1);
    NoneIff(accepts, cur);
    if w <= n then Outcome(Some(Rot(n, cur, w)), Rot(n, cur, w)) else Outcome(None, cur)
  }

  /** Every consumer is some number of places after the cursor. */
  function Distance(n: nat, cur: nat, i: nat): (d: nat)
    requires cur < n && i < n
    ensures 1 <= d <= n && Rot(n, cur, d) == i
  {
    if i > cur then i - cur else i + n - cur
  }

  lemma NoneIff(accepts: seq<bool>, cur: nat)
    requires cur < |accepts|
    ensures Winner(accepts, cur, 1) == |accepts| + 1 <==> forall i :: 0 <= i < |accepts| ==> !accepts[i]
  {
    var n := |accepts|;
    if Winner(accepts, cur, 1) == n + 1 {
      forall i | 0 <= i < n ensures !accepts[i] {
        assert !accepts[Rot(n, cur, Distance(n, cur, i))];
      }
    }
  }

  // ---------------------------------------------------------------- fairness

  /** Consumers served by consecutive wake-ups with the list unchanged. */
  function Rounds(rounds: seq<seq<bool>>, cur: nat): (out: seq<Option<nat>>)
    requires forall r :: r in rounds ==> |r| > cur && |r| == |rounds[0]|
    ensures |out| == |rounds|
  {
    if rounds == [] then [] else
    var o := Served(rounds[0], cur);
    [o.served] + Rounds(rounds[1..], o.current)
  }

  /** A wake-up serves the consumer or brings the cursor nearer to it. */
  lemma Nearer(accepts: seq<bool>, cur: nat, i: nat)
    requires cur < |accepts| && i < |accepts| && accepts[i]
    ensures var o := Served(accepts, cur);
            o.served == Some(i) || Distance(|accepts|, o.current, i) < Distance(|accepts|, cur, i)
  {
    var n := |accepts|;
    var d, w := Distance(n, cur, i), Winner(accepts, cur, 1);
    assert accepts[Rot(n, cur, d)];
    assert w <= d;
  }

  /** Nobody starves: a consumer that accepts at every wake-up is served before the cursor has gone round once,
      whatever the others do at each wake-up. */
  lemma {:induction false} BoundedWait(rounds: seq<seq<bool>>, cur: nat, i: nat)
    requires forall r :: r in rounds ==> |r| > cur && |r| == |rounds[0]| && i < |r| && r[i]
    requires rounds != [] && |rounds| >= Distance(|rounds[0]|, cur, i)
    ensures Some(i) in Rounds(rounds, cur)[..Distance(|rounds[0]|, cur, i)]
  {
    var first := rounds[0];
    assert first in rounds;
    var n := |first|;
    var o := Served(first, cur);
    Nearer(first, cur, i);
    var out: seq<Option<nat>> := Rounds(rounds, cur);
    var d := Distance(n, cur, i);
    if o.served == Some(i) {
      assert out[..d][0] == Some(i);
    } else {
      assert d > 1;
      var later := rounds[1..];
      assert later[0] == rounds[1] && rounds[1] in rounds;
      BoundedWait(later, o.current, i);
      var e := Distance(n, o.current, i);
      assert out[1..] == Rounds(later, o.current);
      var j :| 0 <= j < e && out[1..][..e][j] == Some(i);
      assert out[..d][j + 1] == Some(i);
    }
  }

  ghost predicate AllAccept(rounds: seq<seq<bool>>, n: nat) {
    forall r :: r in rounds ==> |r| == n && forall i :: 0 <= i < n ==> r[i]
  }

  lemma NextWins(accepts: seq<bool>, cur: nat)
    requires cur < |accepts| && forall i :: 0 <= i < |accepts| ==> accepts[i]
    ensures Served(accepts, cur) == Outcome(Some(Rot(|accepts|, cur, 1)), Rot(|accepts|, cur, 1))
  {
    assert Winner(accepts, cur, 1) == 1;
  }

  /** With everyone accepting, the consumers are served in list order from the cursor on. */
  lemma {:induction false} InTurn(rounds: seq<seq<bool>>, n: nat, cur: nat, j: nat)
    requires cur < n && AllAccept(rounds, n) && j < |rounds| <= n
    ensures forall r :: r in rounds ==> |r| > cur && |r| == |rounds[0]|
    ensures Rounds(rounds, cur)[j] == Some(Rot(n, cur, j + 1))
    decreases j
  {
    assert rounds[0] in rounds;
    NextWins(rounds[0], cur);
    if j > 0 {
      var later := rounds[1..];
      assert forall r :: r in later ==> r in rounds;
      InTurn(rounds[1..], n, Rot(n, cur, 1), j - 1);
    }
  }

  /** n wake-ups of n accepting consumers serve each exactly once. */
  lemma EachExactlyOnce(rounds: seq<seq<bool>>, n: nat, cur: nat, i: nat)
    requires cur < n && i < n && AllAccept(rounds, n) && |rounds| == n
    ensures forall r :: r in rounds ==> |r| > cur && |r| == |rounds[0]|
    ensures var out := Rounds(rounds, cur);
            exists j :: 0 <= j < n && out[j] == Some(i) && forall k :: 0 <= k < n && out[k] == Some(i) ==> k == j
  {
    InTurn(rounds, n, cur, 0);
    var out := Rounds(rounds, cur);
    forall k | 0 <= k < n ensures out[k] == Some(Rot(n, cur, k + 1)) { InTurn(rounds, n, cur, k); }
    var j := Distance(n, cur, i) - 1;
    assert out[j] == Some(i);
  }

  // ---------------------------------------------------------------- the consumer list

  /** Without the first consumer of that tag. */
  function Without(cs: seq<string>, tag: string): seq<string> {
    if cs == [] then [] else if cs[0] == tag then cs[1..] else [cs[0]] + Without(cs[1..], tag)
  }

  lemma {:induction false} WithoutLength(cs: seq<string>, tag: string)
    ensures |Without(cs, tag)| == if tag in cs then |cs| - 1 else |cs|
  {
    if cs != [] && cs[0] != tag {
      WithoutLength(cs[1..], tag);
      assert tag in cs <==> tag in cs[1..];
    }
  }

  /** A refused consumer on an active queue still counts as an attempt to consume. */
  function Add(s: State, tag: string, exclusive: bool): (State, bool) {
    if !s.active then (s, false)
    else if s.consumers != [] && (s.exclusive || exclusive) then (s.(wasConsumed := true), false)
    else (s.(consumers := s.consumers + [tag], exclusive := s.exclusive || exclusive, wasConsumed := true), true)
  }

  /** The flag tells whether the queue reports itself for auto-deletion. */
  function Remove(s: State, tag: string): (State, bool) {
    var cs := Without(s.consumers, tag);
    if cs == [] then (s.(consumers := cs, current := 0, exclusive := false), s.wasConsumed && s.autoDelete)
    else (s.(consumers := cs, current := (s.current + 1) % |cs|), false)
  }

  datatype Event = AddConsumer(tag: string, exclusive: bool) | RemoveConsumer(tag: string) | Wake(accepts: seq<bool>)

  function Next(s: State, e: Event): State
    requires Inv(s)
  {
    match e
    case AddConsumer(tag, exclusive) => Add(s, tag, exclusive).0
    case RemoveConsumer(tag) => Remove(s, tag).0
    case Wake(accepts) =>
      if !s.active || s.consumers == [] || |accepts| != |s.consumers| then s
      else s.(current := Served(accepts, s.current).current)
  }

  /** Every step keeps the cursor in range and an exclusive consumer alone. */
  lemma NextInv(s: State, e: Event)
    requires Inv(s)
    ensures Inv(Next(s, e))
  {
    if e.RemoveConsumer? { WithoutLength(s.consumers, e.tag); }
  }

  lemma LastRemovalReports(s: State, tag: string)
    requires Inv(s) && s.autoDelete && s.consumers == [tag]
    ensures Remove(s, tag).1
  {
    assert s.consumers[1..] == [];
  }

  /** A second removal on the empty queue reports it again. */
  lemma ReportedTwice(s: State, tag: string, other: string)
    requires Inv(s) && s.autoDelete && s.consumers == [tag]
    ensures Remove(s, tag).1 && Remove(Remove(s, tag).0, other).1
  {
    LastRemovalReports(s, tag);
    assert s.consumers[1..] == [];
  }

  ghost predicate Steps(states: seq<State>, events: seq<Event>) {
    && |states| == |events| + 1
    && Inv(states[0])
    && forall i :: 0 <= i < |events| ==> Inv(states[i]) ==> states[i + 1] == Next(states[i], events[i])
  }

  lemma {:induction false} RunInv(states: seq<State>, events: seq<Event>, k: nat)
    requires Steps(states, events) && k < |states|
    ensures Inv(states[k])
  {
    if k > 0 {
      RunInv(states, events, k - 1);
      NextInv(states[k - 1], events[k - 1]);
    }
  }

  /** Somebody tried to consume from the active queue among the first k events. */
  ghost predicate Attempted(s: State, events: seq<Event>, k: nat) {
    s.active && exists i :: 0 <= i < k <= |events| && events[i].AddConsumer?
  }

  lemma {:induction false} ConsumedIff(states: seq<State>, events: seq<Event>, k: nat)
    requires Steps(states, events) && k < |states|
    ensures states[k].active == states[0].active && states[k].autoDelete == states[0].autoDelete
    ensures states[k].wasConsumed <==> states[0].wasConsumed || Attempted(states[0], events, k)
  {
    if k > 0 {
      ConsumedIff(states, events, k - 1);
      RunInv(states, events, k - 1);
      var e := events[k - 1];
      if i :| 0 <= i < k && events[i].AddConsumer? {
        if i < k - 1 { assert Attempted(states[0], events, k - 1) <==> states[0].active; }
      }
    }
  }

  /** In every history of a new queue, a removal has the queue report itself exactly when it is an auto-delete queue
      that the removal leaves without consumers, and somebody tried to consume before: the attempt may have been
      refused, and the consumer removed need not exist. */
  lemma {:induction false} ReportedIff(states: seq<State>, events: seq<Event>, k: nat)
    requires Steps(states, events) && !states[0].wasConsumed && k < |events| && events[k].RemoveConsumer?
    ensures Remove(states[k], events[k].tag).1 <==>
              states[0].autoDelete && states[k + 1].consumers == [] && Attempted(states[0], events, k)
  {
    ConsumedIff(states, events, k);
    RunInv(states, events, k);
  }

  // ---------------------------------------------------------------- the code

  /** The search of RemoveConsumer: the first consumer of that tag is cut out of the slice. */
  method Cut(cs: seq<string>, tag: string) returns (rest: seq<string>)
    ensures rest == Without(cs, tag)
  {
    var i := 0;
    while i < |cs|
      invariant i <= |cs|
      invariant Without(cs, tag) == cs[..i] + Without(cs[i..], tag)
    {
      assert cs[i..][1..] == cs[i + 1..];
      if cs[i] == tag { return cs[..i] + cs[i + 1..]; }
      assert cs[..i] + ([cs[i]] + Without(cs[i + 1..], tag)) == cs[..i + 1] + Without(cs[i + 1..], tag);
      i := i + 1;
    }
    assert cs[..i] + [] == cs;
    rest := cs;
  }

  class Dispatcher {
    var consumers: seq<string>
    var currentConsumer: nat
    var consumeExcl: bool
    var wasConsumed: bool
    var active: bool
    const autoDelete: bool

    constructor (autoDelete: bool)
      ensures Inv(Value()) && Value() == State([], 0, false, false, true, autoDelete)
    {
      consumers, currentConsumer, consumeExcl, wasConsumed, active := [], 0, false, false, true;
      this.autoDelete := autoDelete;
    }

    function Value(): State
      reads this
    {
      State(consumers, currentConsumer, consumeExcl, wasConsumed, active, autoDelete)
    }

    /** The body of the dispatch loop. tried lists the consumers asked, in order: no one twice. */
    method WakeUp(accepts: seq<bool>) returns (served: Option<nat>, tried: seq<nat>)
      requires Inv(Value()) && |accepts| == |consumers|
      modifies `currentConsumer
      ensures Value() == Next(old(Value()), Wake(accepts))
      ensures served == if active && accepts != [] then Served(accepts, old(currentConsumer)).served else None
      ensures forall i, j :: 0 <= i < j < |tried| ==> tried[i] != tried[j]
      ensures forall i :: 0 <= i < |tried| ==> tried[i] < |accepts| && (accepts[tried[i]] ==> served == Some(tried[i]))
    {
      var cmrCount := |consumers|;
      var i := 0;
      tried := [];
      served := None;
      ghost var cur := currentConsumer;
      while i < cmrCount
        invariant i <= cmrCount && |tried| == i
        invariant cmrCount > 0 ==> currentConsumer == Rot(cmrCount, cur, i)
        invariant cmrCount == 0 ==> currentConsumer == cur
        invariant i > 0 ==> active
        invariant forall j :: 0 <= j < i ==> tried[j] == Rot(cmrCount, cur, j + 1) && !accepts[tried[j]]
        invariant i < cmrCount ==> Winner(accepts, cur, 1) == Winner(accepts, cur, i + 1)
        invariant i == cmrCount > 0 ==> Winner(accepts, cur, 1) == cmrCount + 1
      {
        if !active { return; }
        RotStep(cmrCount, cur, i);
        currentConsumer := (currentConsumer + 1) % cmrCount;
        tried := tried + [currentConsumer];
        i := i + 1;
        if accepts[currentConsumer] {
          served := Some(currentConsumer);
          return;
        }
      }
    }

    method AddConsumer(tag: string, exclusive: bool) returns (ok: bool)
      requires Inv(Value())
      modifies this
      ensures (Value(), ok) == Add(old(Value()), tag, exclusive) && Inv(Value())
    {
      NextInv(Value(), Event.AddConsumer(tag, exclusive));
      if !active { return false; }
      wasConsumed := true;
      if |consumers| != 0 && (consumeExcl || exclusive) { return false; }
      if exclusive { consumeExcl := true; }
      consumers := consumers + [tag];
      ok := true;
    }

    method RemoveConsumer(tag: string) returns (reported: bool)
      requires Inv(Value())
      modifies this
      ensures (Value(), reported) == Remove(old(Value()), tag) && Inv(Value())
    {
      NextInv(Value(), Event.RemoveConsumer(tag));
      consumers := Cut(consumers, tag);
      var cmrCount := |consumers|;
      if cmrCount == 0 {
        currentConsumer := 0;
        consumeExcl := false;
      } else {
        currentConsumer := (currentConsumer + 1) % cmrCount;
      }
      reported := cmrCount == 0 && wasConsumed && autoDelete;
    }
  }
}
