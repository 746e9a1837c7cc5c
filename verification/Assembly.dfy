/**
 How a channel puts a published message together from its method, header and body frames:
 basicPublish (server/basicMethods.go), handleContentHeader and handleContentBody
 (server/channel.go) and Message.Append (amqp/types.go).
 */
module Assembly {
  import opened Options
  import opened Bytes
  import opened StoredMessage
  import opened Words
  import Seqs

  /** The parts of basic.publish that stay with the message. */
  datatype Publish = Publish(exchange: seq<Byte>, key: seq<Byte>, mandatory: bool)

  /** The message under assembly; bodySize is the announced size, once the header is there. */
  datatype Draft = Draft(publish: Publish, tag: Option<nat>, bodySize: Option<nat>, frames: seq<Frame>, size: nat)

  datatype State = State(current: Option<Draft>, confirmMode: bool, lastTag: nat)

  /** A frame as the channel sees it. A publish is refused when it asks for immediate delivery or names an
      unknown exchange; a header may fail to parse. */
  datatype Event =
    | Method(publish: Publish, refused: bool)
    | ContentHeader(bodySize: Option<nat>)
    | ContentBody(frame: Frame)

  datatype Result = Result(state: State, routed: Option<Draft>, error: bool)

  function Begin(s: State, p: Publish): State {
    var tag := (s.lastTag + 1) % WORD64;
    if s.confirmMode then s.(current := Some(Draft(p, Some(tag), None, [], 0)), lastTag := tag)
    else s.(current := Some(Draft(p, None, None, [], 0)))
  }

  function Append(d: Draft, f: Frame): Draft {
    d.(frames := d.frames + [f], size := Grown(d.size, f))
  }

  /** The current message is replaced by a publish and by nothing else. */
  function Step(s: State, e: Event): Result {
    match e
    case Method(p, refused) => if refused then Result(s, None, true) else Result(Begin(s, p), None, false)
    case ContentHeader(n) =>
      if s.current.None? || s.current.value.bodySize.Some? || n.None? then Result(s, None, true)
      else Result(s.(current := Some(s.current.value.(bodySize := n))), None, false)
    case ContentBody(f) =>
      if s.current.None? || s.current.value.bodySize.None? then Result(s, None, true) else
      var d := Append(s.current.value, f);
      Result(s.(current := Some(d)), if d.size < d.bodySize.value then None else Some(d), false)
  }

  function Final(s: State, es: seq<Event>): State
    decreases |es|
  {
    if es == [] then s else Final(Step(s, es[0]).state, es[1..])
  }

  /** What is routed at each frame. */
  function Outs(s: State, es: seq<Event>): (outs: seq<Option<Draft>>)
    ensures |outs| == |es|
    decreases |es|
  {
    if es == [] then [] else [Step(s, es[0]).routed] + Outs(Step(s, es[0]).state, es[1..])
  }

  function Routed(outs: seq<Option<Draft>>): seq<Draft> {
    if outs == [] then [] else (if outs[0].Some? then [outs[0].value] else []) + Routed(outs[1..])
  }

  lemma {:induction false} RunConcat(s: State, a: seq<Event>, b: seq<Event>)
    ensures Outs(s, a + b) == Outs(s, a) + Outs(Final(s, a), b)
    ensures Final(s, a + b) == Final(Final(s, a), b)
    decreases |a|
  {
    if a == [] {
      assert a + b == b;
    } else {
      RunConcat(Step(s, a[0]).state, a[1..], b);
      assert (a + b)[0] == a[0] && (a + b)[1..] == a[1..] + b;
    }
  }

  lemma {:induction false} RoutedConcat(a: seq<Option<Draft>>, b: seq<Option<Draft>>)
    ensures Routed(a + b) == Routed(a) + Routed(b)
  {
    if a == [] {
      assert a + b == b;
    } else {
      RoutedConcat(a[1..], b);
      assert (a + b)[0] == a[0] && (a + b)[1..] == a[1..] + b;
      var first := if a[0].Some? then [a[0].value] else [];
      assert Routed(a + b) == first + Routed(a[1..] + b);
      Seqs.Assoc(first, Routed(a[1..]), Routed(b));
    }
  }

  // ---------------------------------------------------------------- one message

  datatype Content = Content(publish: Publish, bodySize: nat, frames: seq<Frame>)

  function Bodies(fs: seq<Frame>): (es: seq<Event>)
    ensures |es| == |fs|
  {
    if fs == [] then [] else [ContentBody(fs[0])] + Bodies(fs[1..])
  }

  function Frames(c: Content): seq<Event> {
    [Method(c.publish, false), ContentHeader(Some(c.bodySize))] + Bodies(c.frames)
  }

  /** The announced size is first reached with the last frame. */
  predicate EndsWithLast(fs: seq<Frame>, size: nat, target: nat) {
    if fs == [] then false
    else if |fs| == 1 then Grown(size, fs[0]) >= target
    else Grown(size, fs[0]) < target && EndsWithLast(fs[1..], Grown(size, fs[0]), target)
  }

  /** For a body that is not empty this is the condition under which the stored message can be read back. */
  lemma {:induction false} EndsWithLastIff(fs: seq<Frame>, size: nat, target: nat)
    requires size < target
    ensures EndsWithLast(fs, size, target) <==> Reaches(fs, size, target)
  {
    if |fs| > 1 {
      if Grown(size, fs[0]) < target { EndsWithLastIff(fs[1..], Grown(size, fs[0]), target); }
    } else if |fs| == 1 {
      assert fs[1..] == [];
    }
  }

  function Grow(d: Draft, fs: seq<Frame>): Draft
    decreases |fs|
  {
    if fs == [] then d else Grow(Append(d, fs[0]), fs[1..])
  }

  lemma {:induction false} GrowKeepsOrder(d: Draft, fs: seq<Frame>)
    ensures Grow(d, fs).frames == d.frames + fs
    ensures Grow(d, fs) == d.(frames := d.frames + fs, size := Grow(d, fs).size)
    decreases |fs|
  {
    if fs == [] {
      assert d.frames + [] == d.frames;
    } else {
      GrowKeepsOrder(Append(d, fs[0]), fs[1..]);
      assert d.frames + [fs[0]] + fs[1..] == d.frames + fs;
    }
  }

  /** Exactly one message is routed, at the last frame. */
  ghost predicate OnceAtLast(outs: seq<Option<Draft>>) {
    outs != [] && outs[|outs| - 1].Some? && forall i :: 0 <= i < |outs| - 1 ==> outs[i].None?
  }

  ghost predicate Ready(s: State, d: Draft) {
    s.current == Some(d) && d.bodySize.Some?
  }

  lemma {:induction false} OnceShift(o: Option<Draft>, outs: seq<Option<Draft>>)
    requires outs != []
    ensures OnceAtLast([o] + outs) <==> o.None? && OnceAtLast(outs)
  {
    var all := [o] + outs;
    assert all[|all| - 1] == outs[|outs| - 1] && all[0] == o;
    forall i | 0 <= i < |outs| ensures all[i + 1] == outs[i] {}
    if OnceAtLast(all) {
      forall i | 0 <= i < |outs| - 1 ensures outs[i].None? { assert all[i + 1].None?; }
    }
  }

  lemma {:induction false} BodiesCons(fs: seq<Frame>)
    requires fs != []
    ensures Bodies(fs)[0] == ContentBody(fs[0]) && Bodies(fs)[1..] == Bodies(fs[1..])
  {
  }

  lemma {:induction false} BodiesFinal(s: State, d: Draft, fs: seq<Frame>)
    requires Ready(s, d)
    ensures Final(s, Bodies(fs)) == s.(current := Some(Grow(d, fs)))
    decreases |fs|
  {
    if fs != [] {
      BodiesCons(fs);
      BodiesFinal(Step(s, ContentBody(fs[0])).state, Append(d, fs[0]), fs[1..]);
    }
  }

  lemma {:induction false} BodiesRun(s: State, d: Draft, fs: seq<Frame>)
    requires Ready(s, d)
    ensures OnceAtLast(Outs(s, Bodies(fs))) <==> EndsWithLast(fs, d.size, d.bodySize.value)
    ensures OnceAtLast(Outs(s, Bodies(fs))) ==> Outs(s, Bodies(fs))[|fs| - 1] == Some(Grow(d, fs))
    decreases |fs|
  {
    if fs != [] {
      var r := Step(s, ContentBody(fs[0]));
      BodiesCons(fs);
      BodiesRun(r.state, Append(d, fs[0]), fs[1..]);
      assert Outs(s, Bodies(fs)) == [r.routed] + Outs(r.state, Bodies(fs[1..]));
      if |fs| == 1 {
        assert fs[1..] == [];
      } else {
        OnceShift(r.routed, Outs(r.state, Bodies(fs[1..])));
      }
    }
  }

  /** The message a run of frames stands for. */
  function Whole(s: State, c: Content): Draft {
    Grow(Begin(s, c.publish).current.value.(bodySize := Some(c.bodySize)), c.frames)
  }

  lemma {:induction false} AfterHeader(s: State, c: Content)
    ensures var start := Begin(s, c.publish).current.value.(bodySize := Some(c.bodySize));
            var t := Begin(s, c.publish).(current := Some(start));
            && Outs(s, Frames(c)) == [None, None] + Outs(t, Bodies(c.frames))
            && Final(s, Frames(c)) == Final(t, Bodies(c.frames))
  {
    var es := Frames(c);
    var b := Step(s, es[0]).state;
    assert es[1..] == [ContentHeader(Some(c.bodySize))] + Bodies(c.frames);
    assert es[1..][1..] == Bodies(c.frames);
    var t := Step(b, es[1]).state;
    assert Outs(s, es) == [None] + ([None] + Outs(t, Bodies(c.frames)));
  }

  /** From any state, an accepted publish, its header and its frames route the whole message once, at the last
      frame, exactly when the announced size is first reached there; and then with the frames in order. */
  lemma {:induction false} AssembledOnceIff(s: State, c: Content)
    ensures OnceAtLast(Outs(s, Frames(c))) <==> EndsWithLast(c.frames, 0, c.bodySize)
    ensures OnceAtLast(Outs(s, Frames(c))) ==> Outs(s, Frames(c))[|c.frames| + 1] == Some(Whole(s, c))
    ensures Final(s, Frames(c)) == Begin(s, c.publish).(current := Some(Whole(s, c)))
    ensures Whole(s, c).frames == c.frames && Whole(s, c).publish == c.publish
  {
    var start := Begin(s, c.publish).current.value.(bodySize := Some(c.bodySize));
    var t := Begin(s, c.publish).(current := Some(start));
    AfterHeader(s, c);
    BodiesRun(t, start, c.frames);
    BodiesFinal(t, start, c.frames);
    GrowKeepsOrder(start, c.frames);
    assert [] + c.frames == c.frames;
    var outs := Outs(t, Bodies(c.frames));
    if c.frames == [] {
      assert Outs(s, Frames(c)) == [None, None];
      assert Outs(s, Frames(c))[1].None?;
    } else {
      OnceShift(None, outs);
      OnceShift(None, [None] + outs);
      assert [None, None] + outs == [None] + ([None] + outs);
    }
  }

  /** A zero-length message without body frames is never routed. */
  lemma {:induction false} EmptyBodyNeverRouted(s: State, p: Publish)
    ensures Routed(Outs(s, Frames(Content(p, 0, [])))) == []
  {
    var c := Content(p, 0, []);
    AfterHeader(s, c);
    assert Outs(s, Frames(c)) == [None, None];
    var outs := Outs(s, Frames(c));
    assert outs[1..][0].None? && outs[1..][1..] == [];
    assert Routed(outs[1..]) == [] + Routed(outs[1..][1..]);
  }

  /** The message stays current, so one more body frame routes it again, under the same confirm tag. */
  lemma {:induction false} ExtraFrameRoutesAgain(s: State, c: Content, f: Frame)
    requires EndsWithLast(c.frames, 0, c.bodySize)
    requires Grown(Whole(s, c).size, f) >= c.bodySize
    ensures var again := Step(Final(s, Frames(c)), ContentBody(f));
            again.routed == Some(Append(Whole(s, c), f)) && again.routed.value.tag == Whole(s, c).tag
  {
    AssembledOnceIff(s, c);
    GrowKeepsOrder(Begin(s, c.publish).current.value.(bodySize := Some(c.bodySize)), c.frames);
  }

  // ---------------------------------------------------------------- a whole stream

  function Stream(cs: seq<Content>): seq<Event> {
    if cs == [] then [] else Frames(cs[0]) + Stream(cs[1..])
  }

  ghost predicate Conforming(cs: seq<Content>) {
    forall i :: 0 <= i < |cs| ==> EndsWithLast(cs[i].frames, 0, cs[i].bodySize)
  }

  lemma {:induction false} RoutedOnce(outs: seq<Option<Draft>>)
    requires OnceAtLast(outs)
    ensures Routed(outs) == [outs[|outs| - 1].value]
  {
    if |outs| == 1 {
      assert outs[1..] == [];
    } else {
      OnceShift(outs[0], outs[1..]);
      assert outs == [outs[0]] + outs[1..];
      RoutedOnce(outs[1..]);
    }
  }

  /** Routed message i belongs to publish i, whole and in order, and carries the next tag. */
  ghost predicate Answers(routed: seq<Draft>, cs: seq<Content>, base: nat) {
    && |routed| == |cs|
    && forall i :: 0 <= i < |cs| ==>
         && routed[i].publish == cs[i].publish
         && routed[i].frames == cs[i].frames
         && routed[i].tag == Some(base + i + 1)
  }

  lemma {:induction false} AnswersCons(d: Draft, routed: seq<Draft>, cs: seq<Content>, base: nat)
    requires cs != [] && Answers(routed, cs[1..], base + 1)
    requires d.publish == cs[0].publish && d.frames == cs[0].frames && d.tag == Some(base + 1)
    ensures Answers([d] + routed, cs, base)
  {
    var all := [d] + routed;
    forall i | 0 <= i < |cs|
      ensures all[i].publish == cs[i].publish && all[i].frames == cs[i].frames && all[i].tag == Some(base + i + 1)
    {
      if i > 0 { assert all[i] == routed[i - 1] && cs[i] == cs[1..][i - 1]; }
    }
  }

  /** Over every conforming stream in confirm mode the channel routes each publish once, in order, and the i-th
      publish carries tag i. */
  lemma {:induction false} StreamAssembles(s: State, cs: seq<Content>)
    requires Conforming(cs) && s.confirmMode && s.lastTag + |cs| < WORD64
    ensures Answers(Routed(Outs(s, Stream(cs))), cs, s.lastTag)
    decreases |cs|
  {
    if cs != [] {
      var c := cs[0];
      var t := Final(s, Frames(c));
      AssembledOnceIff(s, c);
      RoutedOnce(Outs(s, Frames(c)));
      GrowKeepsOrder(Begin(s, c.publish).current.value.(bodySize := Some(c.bodySize)), c.frames);
      assert Whole(s, c).tag == Some(s.lastTag + 1) && t.lastTag == s.lastTag + 1 && t.confirmMode;
      assert Conforming(cs[1..]);
      StreamAssembles(t, cs[1..]);
      RunConcat(s, Frames(c), Stream(cs[1..]));
      RoutedConcat(Outs(s, Frames(c)), Outs(t, Stream(cs[1..])));
      AnswersCons(Whole(s, c), Routed(Outs(t, Stream(cs[1..]))), cs, s.lastTag);
    }
  }

  // ---------------------------------------------------------------- the code

  class Assembler {
    var currentMessage: Option<Draft>
    const confirmMode: bool
    var confirmDeliveryTag: nat

    constructor (confirm: bool)
      ensures Value() == State(None, confirm, 0)
    {
      currentMessage, confirmMode, confirmDeliveryTag := None, confirm, 0;
    }

    function Value(): State
      reads this
    {
      State(currentMessage, confirmMode, confirmDeliveryTag)
    }

    method BasicPublish(p: Publish, immediate: bool, exchangeKnown: bool) returns (error: bool)
      modifies this
      ensures var r := Step(old(Value()), Method(p, immediate || !exchangeKnown));
              Value() == r.state && error == r.error
    {
      if immediate { return true; }
      if !exchangeKnown { return true; }
      currentMessage := Some(Draft(p, None, None, [], 0));
      if confirmMode {
        confirmDeliveryTag := (confirmDeliveryTag + 1) % WORD64;
        currentMessage := Some(currentMessage.value.(tag := Some(confirmDeliveryTag)));
      }
      error := false;
    }

    method HandleContentHeader(bodySize: Option<nat>) returns (error: bool)
      modifies `currentMessage
      ensures var r := Step(old(Value()), ContentHeader(bodySize));
              Value() == r.state && error == r.error
    {
      if currentMessage == None || currentMessage.value.bodySize != None || bodySize == None { return true; }
      currentMessage := Some(currentMessage.value.(bodySize := bodySize));
      error := false;
    }

    method HandleContentBody(f: Frame) returns (routed: Option<Draft>, error: bool)
      modifies `currentMessage
      ensures var r := Step(old(Value()), ContentBody(f));
              Value() == r.state && routed == r.routed && error == r.error
    {
      routed, error := None, true;
      if currentMessage == None || currentMessage.value.bodySize == None { return; }
      error := false;
      var d := currentMessage.value;
      d := d.(frames := d.frames + [f]);
      d := d.(size := (d.size + |f.payload|) % WORD64);
      currentMessage := Some(d);
      if d.size < d.bodySize.value { return; }
      routed := Some(d);
    }
  }
}
