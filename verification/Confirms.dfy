/**
 Publisher confirms for one message, as a state machine over the steps of four
 files: the push loop of handleContentBody (server/channel.go), Push (queue/queue.go),
 the flush of persist (msgstorage/msgstorage.go) and handleConfirms (server/vhost.go).
 The steps of different goroutines may interleave in any order.
 */
module Confirms {

  /** How far the message has got in one of its queues. */
  datatype Stage =
    | Todo      // not pushed yet
    | InRam     // taken, and no disk write is due
    | Buffered  // taken; the write waits in the add buffer of the store
    | Written   // the write is committed and not yet counted
    | Counted   // committed and counted
    | Lost      // not pushed, ignored by a stopped queue, or acknowledged before its write: never counted

  datatype State = State(
    persistent: bool,
    durable: set<string>,
    stage: map<string, Stage>,  // for every queue the message was routed to
    expected: nat,              // ConfirmMeta.ExpectedConfirms
    actual: nat,                // ConfirmMeta.ActualConfirms
    signals: nat,               // entries for this message in confirmSyncCh
    confirms: nat)              // confirms queued on the channel

  function Start(persistent: bool, durable: set<string>, matched: set<string>): State {
    State(persistent, durable, map q | q in matched :: Todo, |matched|, 0, 0, 0)
  }

  datatype Step =
    | Push(q: string)    // an active queue takes the message
    | Skip(q: string)    // the queue is no longer active and ignores it
    | Missing(q: string) // the queue is gone: the push loop confirms and gives up
    | Cancel(q: string)  // acknowledged before its write left the buffer
    | Commit             // the storage commits its batch
    | Signal(q: string)  // persist counts one committed write and signals it
    | Handle             // handleConfirms takes one signal

  predicate CanConfirm(s: State) {
    s.actual == s.expected
  }

  predicate ToDisk(s: State, q: string) {
    s.persistent && q in s.durable
  }

  predicate At(s: State, q: string, g: Stage) {
    q in s.stage && s.stage[q] == g
  }

  predicate Enabled(s: State, st: Step) {
    match st
    case Push(q) => At(s, q, Todo)
    case Skip(q) => At(s, q, Todo)
    case Missing(q) => At(s, q, Todo)
    case Cancel(q) => At(s, q, Buffered)
    case Commit => true
    case Signal(q) => At(s, q, Written)
    case Handle => s.signals > 0
  }

  /** The check after each push in handleContentBody. */
  function AfterPush(s: State): State {
    if CanConfirm(s) && !s.persistent then s.(confirms := s.confirms + 1) else s
  }

  function Committed(stage: map<string, Stage>): map<string, Stage> {
    map q | q in stage :: if stage[q] == Buffered then Written else stage[q]
  }

  function GivenUp(stage: map<string, Stage>): map<string, Stage> {
    map q | q in stage :: if stage[q] == Todo then Lost else stage[q]
  }

  function Next(s: State, st: Step): State
    requires Enabled(s, st)
  {
    match st
    case Push(q) =>
      AfterPush(if ToDisk(s, q) then s.(stage := s.stage[q := Buffered])
                else s.(stage := s.stage[q := InRam], actual := s.actual + 1))
    case Skip(q) => AfterPush(s.(stage := s.stage[q := Lost]))
    case Missing(_) => s.(stage := GivenUp(s.stage), confirms := s.confirms + 1)
    case Cancel(q) => s.(stage := s.stage[q := Lost])
    case Commit => s.(stage := Committed(s.stage))
    case Signal(q) => s.(stage := s.stage[q := Counted], actual := s.actual + 1, signals := s.signals + 1)
    case Handle =>
      s.(signals := s.signals - 1, confirms := if CanConfirm(s) then s.confirms + 1 else s.confirms)
  }

  // ---------------------------------------------------------------- safety

  ghost function Among(stage: map<string, Stage>, g: Stage): set<string> {
    set q | q in stage && stage[q] == g
  }

  ghost function Done(stage: map<string, Stage>): set<string> {
    set q | q in stage && (stage[q] == InRam || stage[q] == Counted)
  }

  ghost predicate Fits(s: State, q: string, g: Stage) {
    match g
    case InRam => !ToDisk(s, q)
    case Buffered => ToDisk(s, q)
    case Written => ToDisk(s, q)
    case Counted => ToDisk(s, q)
    case _ => true
  }

  /** The counter counts exactly the queues that are done, and a disk write is due exactly where it is waited for. */
  ghost predicate Inv(s: State) {
    && s.expected == |s.stage|
    && s.actual == |Done(s.stage)|
    && (forall q :: q in s.stage ==> Fits(s, q, s.stage[q]))
  }

  /** Every matched queue has taken the message, and every durable one has a committed write where one is due. */
  ghost predicate Handled(s: State) {
    forall q :: q in s.stage ==> s.stage[q] == if ToDisk(s, q) then Counted else InRam
  }

  /** One queue moves on, and the counter with it. */
  lemma MoveInv(s: State, q: string, g: Stage, s': State)
    requires Inv(s) && q in s.stage && s.stage[q] != InRam && s.stage[q] != Counted && Fits(s, q, g)
    requires s'.persistent == s.persistent && s'.durable == s.durable && s'.expected == s.expected
    requires s'.stage == s.stage[q := g]
    requires s'.actual == if g == InRam || g == Counted then s.actual + 1 else s.actual
    ensures Inv(s')
  {
    assert s'.stage.Keys == s.stage.Keys;
    assert q !in Done(s.stage);
    if g == InRam || g == Counted {
      assert Done(s'.stage) == Done(s.stage) + {q};
    } else {
      assert Done(s'.stage) == Done(s.stage);
    }
  }

  lemma NextInv(s: State, st: Step)
    requires Inv(s) && Enabled(s, st)
    ensures Inv(Next(s, st))
  {
    match st
    case Push(q) => MoveInv(s, q, if ToDisk(s, q) then Buffered else InRam, Next(s, st));
    case Skip(q) => MoveInv(s, q, Lost, Next(s, st));
    case Missing(_) =>
      assert GivenUp(s.stage).Keys == s.stage.Keys;
      assert Done(GivenUp(s.stage)) == Done(s.stage);
    case Cancel(q) => MoveInv(s, q, Lost, Next(s, st));
    case Commit =>
      assert Committed(s.stage).Keys == s.stage.Keys;
      assert Done(Committed(s.stage)) == Done(s.stage);
    case Signal(q) => MoveInv(s, q, Counted, Next(s, st));
    case Handle =>
  }

  lemma AmongStep(stage: map<string, Stage>, q: string, g: Stage)
    requires q in stage
    ensures |Among(stage, g)| == |Among(stage - {q}, g)| + if stage[q] == g then 1 else 0
  {
    assert Among(stage, g) == Among(stage - {q}, g) + if stage[q] == g then {q} else {};
  }

  lemma DoneStep(stage: map<string, Stage>, q: string)
    requires q in stage
    ensures |Done(stage)| == |Done(stage - {q})| + if stage[q] == InRam || stage[q] == Counted then 1 else 0
  {
    assert Done(stage) == Done(stage - {q}) + if stage[q] == InRam || stage[q] == Counted then {q} else {};
  }

  lemma {:induction false} StageSizes(stage: map<string, Stage>)
    ensures |stage| == |Done(stage)| + |Among(stage, Buffered)| + |Among(stage, Written)| + |Among(stage, Todo)|
                       + |Among(stage, Lost)|
    decreases |stage|
  {
    if stage != map[] {
      var q :| q in stage;
      assert stage.Keys == (stage - {q}).Keys + {q};
      StageSizes(stage - {q});
      DoneStep(stage, q);
      AmongStep(stage, q, Buffered);
      AmongStep(stage, q, Written);
      AmongStep(stage, q, Todo);
      AmongStep(stage, q, Lost);
    }
  }

  /** counted + buffered + written + not pushed + lost = expected */
  lemma StagesAddUp(s: State)
    requires Inv(s)
    ensures s.actual + |Among(s.stage, Buffered)| + |Among(s.stage, Written)| + |Among(s.stage, Todo)|
            + |Among(s.stage, Lost)| == s.expected
  {
    StageSizes(s.stage);
  }

  lemma SubsetOfSameSize<T>(a: set<T>, b: set<T>)
    requires a <= b && |a| == |b|
    ensures a == b
  {
    assert b == a + (b - a);
  }

  lemma ConfirmableIffHandled(s: State)
    requires Inv(s)
    ensures CanConfirm(s) <==> Handled(s)
  {
    if CanConfirm(s) { SubsetOfSameSize(Done(s.stage), s.stage.Keys); }
    if Handled(s) { assert Done(s.stage) == s.stage.Keys; }
  }

  /** A confirm waits until every matched queue has taken the message and every durable one has had its write
      committed, except in one case: a matched queue that is gone has it confirmed at once. */
  lemma ConfirmWaitsIff(s: State, st: Step)
    requires Inv(s) && Enabled(s, st) && Next(s, st).confirms > s.confirms
    ensures Handled(Next(s, st)) <==> !st.Missing?
  {
    NextInv(s, st);
    ConfirmableIffHandled(Next(s, st));
    if st.Missing? { assert Next(s, st).stage[st.q] == Lost; }
  }

  // ---------------------------------------------------------------- whole runs

  ghost predicate CanRun(s: State, steps: seq<Step>)
    decreases |steps|
  {
    steps == [] || (Enabled(s, steps[0]) && CanRun(Next(s, steps[0]), steps[1..]))
  }

  ghost function Run(s: State, steps: seq<Step>): State
    requires CanRun(s, steps)
    decreases |steps|
  {
    if steps == [] then s else Run(Next(s, steps[0]), steps[1..])
  }

  lemma HandledStays(s: State, st: Step)
    requires Inv(s) && Handled(s) && Enabled(s, st)
    ensures Handled(Next(s, st))
  {
    assert st.Commit? ==> Committed(s.stage) == s.stage;
  }

  /** A matched queue was gone when the push loop came to it. */
  ghost predicate GoesMissing(steps: seq<Step>) {
    exists i :: 0 <= i < |steps| && steps[i].Missing?
  }

  lemma MissingFirst(steps: seq<Step>)
    requires steps != []
    ensures GoesMissing(steps) <==> steps[0].Missing? || GoesMissing(steps[1..])
  {
    if i :| 0 <= i < |steps| && steps[i].Missing? {
      if i > 0 { assert steps[1..][i - 1].Missing?; }
    }
    if i :| 0 <= i < |steps[1..]| && steps[1..][i].Missing? { assert steps[i + 1].Missing?; }
  }

  /** Every confirm of the run goes out in a state where all queues have handled the message. */
  ghost predicate NeverEarly(s: State, steps: seq<Step>)
    requires CanRun(s, steps)
    decreases |steps|
  {
    steps == [] ||
    var s1 := Next(s, steps[0]);
    (s1.confirms > s.confirms ==> Handled(s1)) && NeverEarly(s1, steps[1..])
  }

  /** A run is never early exactly when no matched queue goes missing in it. */
  lemma {:induction false} NeverEarlyIff(s: State, steps: seq<Step>)
    requires Inv(s) && CanRun(s, steps)
    ensures NeverEarly(s, steps) <==> !GoesMissing(steps)
    decreases |steps|
  {
    if steps != [] {
      MissingFirst(steps);
      NextInv(s, steps[0]);
      if Next(s, steps[0]).confirms > s.confirms { ConfirmWaitsIff(s, steps[0]); }
      NeverEarlyIff(Next(s, steps[0]), steps[1..]);
    }
  }

  lemma {:induction false} LossStays(s: State, q: string, steps: seq<Step>)
    requires CanRun(s, steps) && At(s, q, Lost)
    ensures At(Run(s, steps), q, Lost) && Run(s, steps).confirms >= s.confirms
    decreases |steps|
  {
    if steps != [] { LossStays(Next(s, steps[0]), q, steps[1..]); }
  }

  /** In every run, a confirmed message is handled by all its queues, from then on, exactly when no matched queue
      went missing. */
  lemma {:induction false} ConfirmedMeansHandledIff(s: State, steps: seq<Step>)
    requires Inv(s) && CanRun(s, steps) && (s.confirms > 0 ==> Handled(s))
    ensures Inv(Run(s, steps))
    ensures (Run(s, steps).confirms > 0 ==> Handled(Run(s, steps))) <==> !GoesMissing(steps)
    ensures GoesMissing(steps) ==> Run(s, steps).confirms > 0
    decreases |steps|
  {
    if steps != [] {
      var s1 := Next(s, steps[0]);
      MissingFirst(steps);
      NextInv(s, steps[0]);
      if steps[0].Missing? {
        LossStays(s1, steps[0].q, steps[1..]);
        RunKeepsInv(s1, steps[1..]);
        assert !Handled(Run(s, steps));
      } else {
        if s.confirms > 0 { HandledStays(s, steps[0]); } else if s1.confirms > 0 { ConfirmWaitsIff(s, steps[0]); }
        ConfirmedMeansHandledIff(s1, steps[1..]);
      }
    }
  }

  lemma {:induction false} RunKeepsInv(s: State, steps: seq<Step>)
    requires Inv(s) && CanRun(s, steps)
    ensures Inv(Run(s, steps))
    decreases |steps|
  {
    if steps != [] {
      NextInv(s, steps[0]);
      RunKeepsInv(Next(s, steps[0]), steps[1..]);
    }
  }

  /** A persistent message is pushed to one of its two durable queues and the other one is gone: it is confirmed
      while its only write is still waiting in the buffer. */
  lemma ConfirmedBeforeWritten()
    ensures var steps := [Push("a"), Missing("b")];
            CanRun(ForTwo(), steps) && Run(ForTwo(), steps).confirms == 1 && At(Run(ForTwo(), steps), "a", Buffered)
  {
    var s0, steps := ForTwo(), [Push("a"), Missing("b")];
    var s1 := Next(s0, Push("a"));
    var s2 := Next(s1, Missing("b"));
    assert steps[1..] == [Missing("b")] && steps[1..][1..] == [];
    assert CanRun(s2, []) && Run(s2, []) == s2;
    assert CanRun(s1, [Missing("b")]) && Run(s1, [Missing("b")]) == s2;
  }

  lemma StartInv(persistent: bool, durable: set<string>, matched: set<string>)
    ensures Inv(Start(persistent, durable, matched))
  {
    var s := Start(persistent, durable, matched);
    assert s.stage.Keys == matched;
    assert Done(s.stage) == {};
  }

  /** Nothing is left to do: every queue has taken the message, counted its write, or lost it. */
  ghost predicate AtRest(s: State) {
    s.signals == 0 && forall q :: q in s.stage ==> s.stage[q].InRam? || s.stage[q].Counted? || s.stage[q].Lost?
  }

  ghost predicate NothingLost(s: State) {
    forall q :: q in s.stage ==> !s.stage[q].Lost?
  }

  ghost predicate Quiet(s: State) {
    AtRest(s) && NothingLost(s)
  }

  /** Signals are only ever sent for counted writes, and a message that is not persistent sends none. Once a queue
      was missing nothing more is pushed. */
  ghost predicate Progress(s: State, missed: bool) {
    && (if !s.persistent then s.signals == 0 && s.confirms == if CanConfirm(s) || missed then 1 else 0
        else CanConfirm(s) && s.confirms == 0 && (forall q :: q in s.stage ==> q in s.durable) ==> s.signals > 0)
    && (missed ==> exists q :: At(s, q, Lost))
    && (missed ==> forall q :: q in s.stage ==> s.stage[q] != Todo)
  }

  lemma NextProgress(s: State, st: Step, missed: bool)
    requires Inv(s) && Progress(s, missed) && Enabled(s, st)
    ensures Progress(Next(s, st), missed || st.Missing?)
  {
    NextInv(s, st);
    ConfirmableIffHandled(s);
    ConfirmableIffHandled(Next(s, st));
    if st.Missing? {
      assert At(Next(s, st), st.q, Lost);
    } else if missed {
      var q :| At(s, q, Lost);
      assert At(Next(s, st), q, Lost);
    }
  }

  lemma {:induction false} RunProgress(s: State, steps: seq<Step>, missed: bool)
    requires Inv(s) && Progress(s, missed) && CanRun(s, steps)
    ensures Inv(Run(s, steps)) && Progress(Run(s, steps), missed || GoesMissing(steps))
    decreases |steps|
  {
    if steps != [] {
      MissingFirst(steps);
      NextInv(s, steps[0]);
      NextProgress(s, steps[0], missed);
      RunProgress(Next(s, steps[0]), steps[1..], missed || steps[0].Missing?);
    }
  }

  /** A message that is not persistent is confirmed exactly once, when its last queue takes it or when one of its
      queues is missing. */
  lemma TransientConfirmedOnce(durable: set<string>, matched: set<string>, steps: seq<Step>)
    requires matched != {} && CanRun(Start(false, durable, matched), steps)
    ensures var s := Run(Start(false, durable, matched), steps);
            s.confirms == if Handled(s) || GoesMissing(steps) then 1 else 0
  {
    var s0 := Start(false, durable, matched);
    StartInv(false, durable, matched);
    RunKeepsConfig(s0, steps);
    RunProgress(s0, steps, false);
    ConfirmableIffHandled(Run(s0, steps));
  }

  lemma {:induction false} RunKeepsConfig(s: State, steps: seq<Step>)
    requires CanRun(s, steps)
    ensures Run(s, steps).persistent == s.persistent && Run(s, steps).durable == s.durable
    ensures Run(s, steps).stage.Keys == s.stage.Keys
    decreases |steps|
  {
    if steps != [] {
      assert Next(s, steps[0]).stage.Keys == s.stage.Keys;
      RunKeepsConfig(Next(s, steps[0]), steps[1..]);
    }
  }

  /** Every run that comes to rest has confirmed the message exactly when no queue lost it, or one was missing. */
  ghost predicate ConfirmedUnlessLost(s0: State) {
    forall steps :: CanRun(s0, steps) && AtRest(Run(s0, steps)) ==>
      (Run(s0, steps).confirms > 0 <==> NothingLost(Run(s0, steps)) || GoesMissing(steps))
  }

  /** Taken, or counted, or not touched yet; no signal and no confirm so far. */
  ghost predicate Idle(s: State) {
    && Inv(s) && s.persistent && s.signals == 0 && s.confirms == 0
    && (forall q :: q in s.stage ==> s.stage[q] == Todo || s.stage[q] == InRam || s.stage[q] == Counted)
  }

  lemma {:induction false} RunConcat(s: State, a: seq<Step>, b: seq<Step>)
    requires CanRun(s, a) && CanRun(Run(s, a), b)
    ensures CanRun(s, a + b) && Run(s, a + b) == Run(Run(s, a), b)
    decreases |a|
  {
    if a == [] {
      assert a + b == b;
    } else {
      RunConcat(Next(s, a[0]), a[1..], b);
      assert (a + b)[1..] == a[1..] + b;
    }
  }

  /** A durable queue's write is committed, signalled and looked at while another queue is still waiting. */
  lemma CountedTooSoon(s: State, q: string, x: string) returns (steps: seq<Step>)
    requires Idle(s) && At(s, q, Todo) && q in s.durable && At(s, x, Todo) && x != q
    ensures CanRun(s, steps) && Idle(Run(s, steps))
    ensures Run(s, steps).stage == s.stage[q := Counted] && Run(s, steps).durable == s.durable
    ensures !GoesMissing(steps)
  {
    var s1 := Next(s, Push(q));
    var s2 := Next(s1, Commit);
    assert s2.stage == s.stage[q := Written];
    var s3 := Next(s2, Signal(q));
    assert s3.stage == s.stage[q := Counted];
    NextInv(s, Push(q));
    NextInv(s1, Commit);
    NextInv(s2, Signal(q));
    assert !Handled(s3) by { assert s3.stage[x] == Todo; }
    ConfirmableIffHandled(s3);
    var s4 := Next(s3, Handle);
    NextInv(s3, Handle);
    FourSteps(s, Push(q), Commit, Signal(q), Handle);
    steps := [Push(q), Commit, Signal(q), Handle];
  }

  lemma FourSteps(s: State, a: Step, b: Step, c: Step, d: Step)
    requires Enabled(s, a) && Enabled(Next(s, a), b) && Enabled(Next(Next(s, a), b), c)
    requires Enabled(Next(Next(Next(s, a), b), c), d)
    ensures CanRun(s, [a, b, c, d]) && Run(s, [a, b, c, d]) == Next(Next(Next(Next(s, a), b), c), d)
  {
    var s1 := Next(s, a);
    var s2 := Next(s1, b);
    var s3 := Next(s2, c);
    var s4 := Next(s3, d);
    assert [a, b, c, d][1..] == [b, c, d] && [b, c, d][1..] == [c, d] && [c, d][1..] == [d] && [d][1..] == [];
    assert CanRun(s4, []) && Run(s4, []) == s4;
    assert CanRun(s3, [d]) && Run(s3, [d]) == s4;
    assert CanRun(s2, [c, d]) && Run(s2, [c, d]) == s4;
    assert CanRun(s1, [b, c, d]) && Run(s1, [b, c, d]) == s4;
  }

  lemma TodoShrinks(stage: map<string, Stage>, q: string, g: Stage)
    requires q in stage && stage[q] == Todo && g != Todo
    ensures |Among(stage[q := g], Todo)| < |Among(stage, Todo)|
  {
    assert Among(stage, Todo) == Among(stage[q := g], Todo) + {q};
  }

  /** Durable queues first, the others last: the run comes to rest and no confirm is ever sent. */
  lemma {:induction false} Unlucky(s: State) returns (steps: seq<Step>)
    requires Idle(s)
    requires (exists q :: At(s, q, Todo) && q in s.durable) ==> exists x :: At(s, x, Todo) && x !in s.durable
    ensures CanRun(s, steps) && Quiet(Run(s, steps)) && Run(s, steps).confirms == 0 && !GoesMissing(steps)
    decreases |Among(s.stage, Todo)|
  {
    if q :| At(s, q, Todo) && q in s.durable {
      var x :| At(s, x, Todo) && x !in s.durable;
      var first := CountedTooSoon(s, q, x);
      var s' := Run(s, first);
      TodoShrinks(s.stage, q, Counted);
      assert At(s', x, Todo) && x !in s'.durable;
      var rest := Unlucky(s');
      RunConcat(s, first, rest);
      steps := first + rest;
    } else if q :| At(s, q, Todo) {
      var s' := Next(s, Push(q));
      NextInv(s, Push(q));
      TodoShrinks(s.stage, q, InRam);
      assert forall p :: At(s', p, Todo) ==> At(s, p, Todo);
      var rest := Unlucky(s');
      steps := [Push(q)] + rest;
      assert steps[1..] == rest;
    } else {
      steps := [];
      assert forall q :: q in s.stage ==> !At(s, q, Todo);
    }
  }

  /** At rest, the loss of a write or of a push is what decides about the confirm, exactly when the message is
      not persistent or all its queues are durable. A persistent message with a queue that is not durable may
      go unconfirmed with nothing lost, and one with no durable queue always does. */
  lemma ConfirmedUnlessLostIff(persistent: bool, durable: set<string>, matched: set<string>)
    requires matched != {}
    ensures ConfirmedUnlessLost(Start(persistent, durable, matched)) <==> !persistent || matched <= durable
  {
    var s0 := Start(persistent, durable, matched);
    StartInv(persistent, durable, matched);
    assert s0.stage.Keys == matched;
    if !persistent || matched <= durable {
      forall steps | CanRun(s0, steps) && AtRest(Run(s0, steps))
        ensures Run(s0, steps).confirms > 0 <==> NothingLost(Run(s0, steps)) || GoesMissing(steps)
      {
        RestConfirmsIff(s0, steps);
      }
    } else {
      var x :| x in matched && x !in durable;
      assert At(s0, x, Todo);
      var steps := Unlucky(s0);
    }
  }

  lemma RestConfirmsIff(s0: State, steps: seq<Step>)
    requires Inv(s0) && Progress(s0, false) && s0.confirms == 0 && CanRun(s0, steps) && AtRest(Run(s0, steps))
    requires !s0.persistent || s0.stage.Keys <= s0.durable
    ensures Run(s0, steps).confirms > 0 <==> NothingLost(Run(s0, steps)) || GoesMissing(steps)
  {
    ConfirmedMeansHandledIff(s0, steps);
    if NothingLost(Run(s0, steps)) { RestConfirms(s0, steps); }
  }

  /** An acknowledgement that meets its message's write in the same flush takes the confirm with it: the run is
      at rest, its only queue is durable and active, and the publisher hears nothing. */
  lemma CancelledNeverConfirmed()
    ensures var s0 := Start(true, {"a"}, {"a"});
            && CanRun(s0, [Push("a"), Cancel("a")])
            && AtRest(Run(s0, [Push("a"), Cancel("a")])) && Run(s0, [Push("a"), Cancel("a")]).confirms == 0
  {
    var s0 := Start(true, {"a"}, {"a"});
    var steps := [Push("a"), Cancel("a")];
    var s1 := Next(s0, Push("a"));
    var s2 := Next(s1, Cancel("a"));
    assert steps[1..] == [Cancel("a")] && steps[1..][1..] == [];
    assert CanRun(s2, []) && Run(s2, []) == s2;
    assert CanRun(s1, [Cancel("a")]) && Run(s1, [Cancel("a")]) == s2;
  }

  lemma RestConfirms(s0: State, steps: seq<Step>)
    requires Inv(s0) && Progress(s0, false) && CanRun(s0, steps) && Quiet(Run(s0, steps))
    requires !s0.persistent || s0.stage.Keys <= s0.durable
    ensures Run(s0, steps).confirms > 0
  {
    var s := Run(s0, steps);
    RunKeepsConfig(s0, steps);
    RunProgress(s0, steps, false);
    forall q | q in s.stage ensures s.stage[q] == if ToDisk(s, q) then Counted else InRam {
      assert Fits(s, q, s.stage[q]);
    }
    ConfirmableIffHandled(s);
  }

  /** A persistent message none of whose queues is durable is confirmed only when one of them is missing. */
  lemma NoDurableConfirmsIff(durable: set<string>, matched: set<string>, steps: seq<Step>)
    requires matched !! durable && CanRun(Start(true, durable, matched), steps)
    ensures Run(Start(true, durable, matched), steps).confirms == if GoesMissing(steps) then 1 else 0
  {
    var s0 := Start(true, durable, matched);
    StartInv(true, durable, matched);
    assert s0.stage.Keys == matched;
    NoDurableRun(s0, steps, false);
  }

  lemma {:induction false} NoDurableRun(s: State, steps: seq<Step>, missed: bool)
    requires s.persistent && s.stage.Keys !! s.durable && s.signals == 0 && Inv(s) && CanRun(s, steps)
    requires s.confirms == if missed then 1 else 0
    requires missed ==> forall q :: q in s.stage ==> s.stage[q] != Todo
    ensures Run(s, steps).confirms == if missed || GoesMissing(steps) then 1 else 0
    decreases |steps|
  {
    if steps != [] {
      MissingFirst(steps);
      NextInv(s, steps[0]);
      assert forall q :: q in s.stage ==> Fits(s, q, s.stage[q]) && !ToDisk(s, q);
      assert Next(s, steps[0]).stage.Keys == s.stage.Keys;
      NoDurableRun(Next(s, steps[0]), steps[1..], missed || steps[0].Missing?);
    }
  }

  // ---------------------------------------------------------------- how often

  /** No run confirms the message more than once. */
  ghost predicate AtMostOnce(s0: State) {
    forall steps :: CanRun(s0, steps) ==> Run(s0, steps).confirms <= 1
  }

  /** Queues that may still send a signal. */
  ghost function Waiting(s: State): set<string> {
    set q | q in s.stage && q in s.durable && s.stage[q] != InRam && s.stage[q] != Counted && s.stage[q] != Lost
  }

  /** The confirm for a missing queue has gone out, and no other will. */
  ghost predicate Abandoned(s: State) {
    s.confirms == 1 && (exists q :: At(s, q, Lost)) && forall q :: q in s.stage ==> s.stage[q] != Todo
  }

  /** At most one confirm is out or due: one for each signal sent or still to come. */
  ghost predicate OneDue(s: State) {
    && Inv(s) && s.persistent
    && (Abandoned(s) || ((s.confirms > 0 ==> Handled(s)) && s.signals + |Waiting(s)| + s.confirms <= 1))
  }

  lemma FewerWaiting(s: State, s': State)
    requires Waiting(s') <= Waiting(s)
    ensures |Waiting(s')| <= |Waiting(s)|
  {
    assert Waiting(s) == Waiting(s') + (Waiting(s) - Waiting(s'));
  }

  lemma NextAbandoned(s: State, st: Step)
    requires Inv(s) && Abandoned(s) && Enabled(s, st)
    ensures Abandoned(Next(s, st))
  {
    NextInv(s, st);
    ConfirmableIffHandled(s);
    var q :| At(s, q, Lost);
    assert At(Next(s, st), q, Lost);
  }

  /** A step that is not for a missing queue sends no more signals than were to come. */
  lemma DueKept(s: State, st: Step)
    requires Inv(s) && s.persistent && Enabled(s, st) && !st.Missing?
    ensures var s' := Next(s, st);
            s'.signals + |Waiting(s')| + s'.confirms <= s.signals + |Waiting(s)| + s.confirms
  {
    var s' := Next(s, st);
    if st.Signal? {
      assert Fits(s, st.q, s.stage[st.q]);
      assert Waiting(s) == Waiting(s') + {st.q};
    } else {
      FewerWaiting(s, s');
    }
  }

  lemma NextOneDue(s: State, st: Step)
    requires OneDue(s) && Enabled(s, st)
    ensures OneDue(Next(s, st))
  {
    var s' := Next(s, st);
    NextInv(s, st);
    if Abandoned(s) {
      NextAbandoned(s, st);
    } else if st.Missing? {
      assert s.confirms == 0 && At(s', st.q, Lost);
    } else {
      DueKept(s, st);
      if s.confirms > 0 { HandledStays(s, st); } else if s'.confirms > 0 { ConfirmWaitsIff(s, st); }
    }
  }

  lemma {:induction false} RunOneDue(s: State, steps: seq<Step>)
    requires OneDue(s) && CanRun(s, steps)
    ensures OneDue(Run(s, steps))
    decreases |steps|
  {
    if steps != [] {
      NextOneDue(s, steps[0]);
      RunOneDue(Next(s, steps[0]), steps[1..]);
    }
  }

  /** Persistent, nothing lost or confirmed, and as many signals as counted writes. */
  ghost predicate Smooth(s: State) {
    && Inv(s) && s.persistent && s.confirms == 0 && s.signals == |Among(s.stage, Counted)|
    && (forall q :: q in s.stage ==> s.stage[q] != Lost)
  }

  /** A queue that has not counted its write yet gets one step further, and no signal is handled. */
  lemma {:induction false} Further(s: State, st: Step, q: string)
    requires Smooth(s) && Enabled(s, st)
    requires (st == Push(q) && At(s, q, Todo)) || (st == Signal(q) && At(s, q, Written))
    ensures Smooth(Next(s, st)) && Next(s, st).durable == s.durable && Next(s, st).stage.Keys == s.stage.Keys
  {
    var s' := Next(s, st);
    NextInv(s, st);
    if st.Push? {
      assert Among(s'.stage, Counted) == Among(s.stage, Counted);
    } else {
      assert Among(s'.stage, Counted) == Among(s.stage, Counted) + {q};
    }
  }

  lemma {:induction false} AllPushed(s: State) returns (steps: seq<Step>)
    requires Smooth(s)
    ensures CanRun(s, steps) && Smooth(Run(s, steps)) && Run(s, steps).durable == s.durable
    ensures Run(s, steps).stage.Keys == s.stage.Keys && Among(Run(s, steps).stage, Todo) == {}
    decreases |Among(s.stage, Todo)|
  {
    if q :| At(s, q, Todo) {
      var s' := Next(s, Push(q));
      Further(s, Push(q), q);
      TodoShrinks(s.stage, q, s'.stage[q]);
      var rest := AllPushed(s');
      steps := [Push(q)] + rest;
      assert steps[1..] == rest;
    } else {
      steps := [];
      assert forall q :: q in s.stage ==> !At(s, q, Todo);
    }
  }

  lemma {:induction false} AllSignalled(s: State) returns (steps: seq<Step>)
    requires Smooth(s) && Among(s.stage, Todo) == {} && Among(s.stage, Buffered) == {}
    ensures CanRun(s, steps) && Smooth(Run(s, steps)) && Run(s, steps).durable == s.durable
    ensures Run(s, steps).stage.Keys == s.stage.Keys && Handled(Run(s, steps))
    decreases |Among(s.stage, Written)|
  {
    if q :| At(s, q, Written) {
      var s' := Next(s, Signal(q));
      Further(s, Signal(q), q);
      assert Among(s.stage, Written) == Among(s'.stage, Written) + {q};
      assert Among(s'.stage, Todo) == {} && Among(s'.stage, Buffered) == {};
      var rest := AllSignalled(s');
      steps := [Signal(q)] + rest;
      assert steps[1..] == rest;
    } else {
      steps := [];
      forall q | q in s.stage ensures s.stage[q] == if ToDisk(s, q) then Counted else InRam {
        assert !At(s, q, Written) && q !in Among(s.stage, Todo) && q !in Among(s.stage, Buffered);
        assert Fits(s, q, s.stage[q]);
      }
    }
  }

  lemma {:induction false} CommitSmooth(s: State)
    requires Smooth(s) && Among(s.stage, Todo) == {}
    ensures var s' := Next(s, Commit);
            && Smooth(s') && s'.durable == s.durable && s'.stage.Keys == s.stage.Keys
            && Among(s'.stage, Todo) == {} && Among(s'.stage, Buffered) == {}
  {
    var s' := Next(s, Commit);
    NextInv(s, Commit);
    assert Among(s'.stage, Counted) == Among(s.stage, Counted);
    assert Among(s'.stage, Todo) == {};
  }

  /** Everything is pushed, committed and signalled before the first signal is handled. */
  lemma {:induction false} AllBeforeHandled(s: State) returns (steps: seq<Step>)
    requires Smooth(s)
    ensures CanRun(s, steps) && Smooth(Run(s, steps)) && Handled(Run(s, steps))
    ensures Run(s, steps).durable == s.durable && Run(s, steps).stage.Keys == s.stage.Keys
  {
    var pushes := AllPushed(s);
    var s1 := Run(s, pushes);
    CommitSmooth(s1);
    var s2 := Next(s1, Commit);
    var signals := AllSignalled(s2);
    var tail := [Commit] + signals;
    assert tail[1..] == signals;
    assert CanRun(s1, tail) && Run(s1, tail) == Run(s2, signals);
    RunConcat(s, pushes, tail);
    steps := pushes + tail;
  }

  lemma {:induction false} TwoHandles(s: State)
    requires Inv(s) && Handled(s) && s.signals >= 2
    ensures CanRun(s, [Handle, Handle]) && Run(s, [Handle, Handle]).confirms == s.confirms + 2
  {
    ConfirmableIffHandled(s);
    var s1 := Next(s, Handle);
    var s2 := Next(s1, Handle);
    assert [Handle, Handle][1..] == [Handle] && [Handle][1..] == [];
    assert CanRun(s2, []) && Run(s2, []) == s2;
    assert CanRun(s1, [Handle]) && Run(s1, [Handle]) == s2;
  }

  /** A message is never confirmed twice exactly when it is not persistent or at most one of its queues is durable. With
      two, one flush that commits both writes can be signalled twice before the first signal is handled. */
  lemma AtMostOnceIff(persistent: bool, durable: set<string>, matched: set<string>)
    requires matched != {}
    ensures AtMostOnce(Start(persistent, durable, matched)) <==> !persistent || |matched * durable| <= 1
  {
    var s0 := Start(persistent, durable, matched);
    StartInv(persistent, durable, matched);
    assert s0.stage.Keys == matched;
    if !persistent {
      forall steps | CanRun(s0, steps) ensures Run(s0, steps).confirms <= 1 {
        TransientConfirmedOnce(durable, matched, steps);
      }
    } else if |matched * durable| <= 1 {
      assert Waiting(s0) == matched * durable;
      forall steps | CanRun(s0, steps) ensures Run(s0, steps).confirms <= 1 { RunOneDue(s0, steps); }
    } else {
      var steps := ConfirmedTwice(s0);
    }
  }

  lemma {:induction false} ConfirmedTwice(s0: State) returns (steps: seq<Step>)
    requires Inv(s0) && s0.persistent && s0.signals == 0 && s0.confirms == 0 && |s0.stage.Keys * s0.durable| >= 2
    requires forall q :: q in s0.stage ==> s0.stage[q] == Todo
    ensures CanRun(s0, steps) && Run(s0, steps).confirms == 2
  {
    assert Among(s0.stage, Counted) == {};
    var first := AllBeforeHandled(s0);
    var s := Run(s0, first);
    RunKeepsConfig(s0, first);
    assert Among(s.stage, Counted) == s0.stage.Keys * s0.durable;
    TwoHandles(s);
    RunConcat(s0, first, [Handle, Handle]);
    steps := first + [Handle, Handle];
  }

  /** A persistent message for two durable queues. */
  function ForTwo(): State {
    Start(true, {"a", "b"}, {"a", "b"})
  }

  lemma TwoQueuesConfirmTwice()
    ensures exists steps :: CanRun(ForTwo(), steps) && Run(ForTwo(), steps).confirms == 2
  {
    var s0 := ForTwo();
    StartInv(true, {"a", "b"}, {"a", "b"});
    assert s0.stage.Keys * s0.durable == {"a", "b"} && |{"a", "b"}| == 2;
    var steps := ConfirmedTwice(s0);
  }
}
