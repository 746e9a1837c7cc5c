/**
 Frames, content headers and the stored form of a message: ReadFrame, WriteFrame,
 ReadContentHeader and WriteContentHeader of amqp/readers_writers.go, and Message.Append,
 Marshal and Unmarshal of amqp/types.go.
 */
module StoredMessage {
  import opened Bytes
  import opened Options
  import opened Fields
  import opened Words
  import Seqs
  import P = Properties
  import T = Tables
  import IO = TableIO

  const FRAME_END: Byte := 206

  datatype Frame = Frame(kind: Byte, channel: U16, payload: seq<Byte>)

  datatype Header = Header(classId: U16, weight: U16, bodySize: U64, props: P.Props)

  datatype Stored = Stored(id: U64, header: Header, exchange: seq<Byte>, key: seq<Byte>, frames: seq<Frame>)

  // ---------------------------------------------------------------- frames

  function EncFrame(f: Frame): seq<Byte> {
    Be(f.kind, 1) + (Be(f.channel, 2) + (WriteLongstr(f.payload) + [FRAME_END]))
  }

  /** ReadFrame asks for payloadSize+1 bytes in uint32 arithmetic, so the largest size wraps to an empty
      buffer and slicing it fails. */
  function DecPayload(b: seq<Byte>): (r: Read<seq<Byte>>)
    ensures r.Ok? ==> |r.rest| < |b| && |r.value| < WORD32 - 1
  {
    Powers();
    var n := ReadUint(b, 4);
    if n.Err? || n.value == WORD32 - 1 then Err else
    var p := ReadBytes(n.rest, n.value + 1);
    if p.Err? || p.value[n.value] != FRAME_END then Err else Ok(p.value[..n.value], p.rest)
  }

  function DecFrame(b: seq<Byte>): (r: Read<Frame>)
    ensures r.Ok? ==> |r.rest| < |b| && |r.value.payload| < WORD32 - 1
  {
    Powers();
    var k := ReadUint(b, 1);
    if k.Err? then Err else
    var c := ReadUint(k.rest, 2);
    if c.Err? then Err else
    var p := DecPayload(c.rest);
    if p.Err? then Err else Ok(Frame(k.value, c.value, p.value), p.rest)
  }

  lemma PayloadRoundTrip(s: seq<Byte>, rest: seq<Byte>)
    requires |s| < WORD32 - 1
    ensures DecPayload(WriteLongstr(s) + [FRAME_END] + rest) == Ok(s, rest)
  {
    Powers();
    var body := s + [FRAME_END];
    assert WriteLongstr(s) + [FRAME_END] + rest == Be(|s|, 4) + (body + rest);
    ReadUintOfBe(|s|, 4, body + rest);
    ReadBytesOf(body, rest);
    assert body[|s|] == FRAME_END && body[..|s|] == s;
  }

  /** A frame survives exactly when its payload is shorter than 2^32 - 1 bytes. */
  lemma FrameRoundTripIff(f: Frame, rest: seq<Byte>)
    ensures DecFrame(EncFrame(f) + rest) == Ok(f, rest) <==> |f.payload| < WORD32 - 1
  {
    if |f.payload| < WORD32 - 1 {
      Powers();
      var p := WriteLongstr(f.payload) + [FRAME_END];
      assert EncFrame(f) + rest == Be(f.kind, 1) + (Be(f.channel, 2) + (p + rest));
      ReadUintOfBe(f.kind, 1, Be(f.channel, 2) + (p + rest));
      ReadUintOfBe(f.channel, 2, p + rest);
      PayloadRoundTrip(f.payload, rest);
    }
  }

  function EncFrames(fs: seq<Frame>): seq<Byte> {
    if fs == [] then [] else EncFrame(fs[0]) + EncFrames(fs[1..])
  }

  /** Append adds the payload length in uint64 arithmetic. */
  function Grown(size: nat, f: Frame): nat {
    (size + |f.payload|) % WORD64
  }

  /** The loop of Unmarshal. */
  function DecFrames(b: seq<Byte>, size: nat, target: nat): Read<seq<Frame>>
    decreases |b|
  {
    if size >= target then Ok([], b) else
    var f := DecFrame(b);
    if f.Err? then Err else
    var more := DecFrames(f.rest, Grown(size, f.value), target);
    if more.Err? then Err else Ok([f.value] + more.value, more.rest)
  }

  /** The frames reach the target with the last one and not before. */
  predicate Reaches(fs: seq<Frame>, size: nat, target: nat) {
    if size >= target then fs == [] else fs != [] && Reaches(fs[1..], Grown(size, fs[0]), target)
  }

  function Total(fs: seq<Frame>): nat {
    if fs == [] then 0 else Total(fs[..|fs| - 1]) + |fs[|fs| - 1].payload|
  }

  lemma {:induction false} TotalFront(fs: seq<Frame>)
    requires fs != []
    ensures Total(fs) == |fs[0].payload| + Total(fs[1..])
  {
    if |fs| > 1 {
      TotalFront(fs[..|fs| - 1]);
      assert fs[..|fs| - 1][1..] == fs[1..][..|fs[1..]| - 1];
    }
  }

  lemma {:induction false} TotalInit(fs: seq<Frame>)
    requires |fs| > 1
    ensures Total(fs[..|fs| - 1]) == |fs[0].payload| + Total(fs[1..][..|fs[1..]| - 1])
  {
    TotalFront(fs[..|fs| - 1]);
    assert fs[..|fs| - 1][1..] == fs[1..][..|fs[1..]| - 1];
  }

  /** The condition in terms of sizes alone, for bodies that fit the 64-bit counter. */
  lemma {:induction false} ReachesIff(fs: seq<Frame>, size: nat, target: nat)
    requires size + Total(fs) < WORD64
    ensures Reaches(fs, size, target) <==>
              if fs == [] then target <= size else size + Total(fs[..|fs| - 1]) < target <= size + Total(fs)
  {
    if fs != [] {
      TotalFront(fs);
      if |fs| > 1 { TotalInit(fs); }
      if size < target { ReachesIff(fs[1..], Grown(size, fs[0]), target); }
    }
  }

  ghost predicate FramesFit(fs: seq<Frame>) {
    forall i :: 0 <= i < |fs| ==> |fs[i].payload| < WORD32 - 1
  }

  lemma {:induction false} FramesRoundTrip(fs: seq<Frame>, size: nat, target: nat, rest: seq<Byte>)
    requires FramesFit(fs) && Reaches(fs, size, target)
    ensures DecFrames(EncFrames(fs) + rest, size, target) == Ok(fs, rest)
  {
    if fs == [] {
      assert [] + rest == rest;
    } else {
      var tail := EncFrames(fs[1..]) + rest;
      Seqs.Assoc(EncFrame(fs[0]), EncFrames(fs[1..]), rest);
      FramesRoundTrip(fs[1..], Grown(size, fs[0]), target, rest);
      FirstFrame(fs[0], tail, size, target);
      assert fs == [fs[0]] + fs[1..];
    }
  }

  lemma FirstFrame(f: Frame, tail: seq<Byte>, size: nat, target: nat)
    requires |f.payload| < WORD32 - 1 && size < target && DecFrames(tail, Grown(size, f), target).Ok?
    ensures var more := DecFrames(tail, Grown(size, f), target);
            DecFrames(EncFrame(f) + tail, size, target) == Ok([f] + more.value, more.rest)
  {
    FrameRoundTripIff(f, tail);
    FrameStep(EncFrame(f) + tail, f, tail, size, target);
  }

  lemma FrameStep(b: seq<Byte>, f: Frame, tail: seq<Byte>, size: nat, target: nat)
    requires size < target && DecFrame(b) == Ok(f, tail) && DecFrames(tail, Grown(size, f), target).Ok?
    ensures var more := DecFrames(tail, Grown(size, f), target);
            DecFrames(b, size, target) == Ok([f] + more.value, more.rest)
  {
  }

  /** Whatever is read back reached the target with its last frame. */
  lemma {:induction false} ReadFramesReach(b: seq<Byte>, size: nat, target: nat)
    requires DecFrames(b, size, target).Ok?
    ensures Reaches(DecFrames(b, size, target).value, size, target) && FramesFit(DecFrames(b, size, target).value)
    decreases |b|
  {
    if size < target {
      var f := DecFrame(b);
      ReadFramesReach(f.rest, Grown(size, f.value), target);
      assert DecFrames(b, size, target).value[1..] == DecFrames(f.rest, Grown(size, f.value), target).value;
    }
  }

  // ---------------------------------------------------------------- headers

  /** BasicPropertyList, field by field. */
  const BASIC: seq<Kind> :=
    [ShortStr, ShortStr, FieldTable, Octet, Octet, ShortStr, ShortStr, ShortStr, ShortStr, Timestamp, ShortStr,
     ShortStr, ShortStr, ShortStr]

  function EncHeader(h: Header): seq<Byte>
    requires |h.props| == |BASIC|
  {
    Be(h.classId, 2) + (Be(h.weight, 2) + (Be(h.bodySize, 8) + (Be(P.FlagsOf(h.props), 2) + P.Body(BASIC, h.props))))
  }

  /** The 14 fixed bytes are fetched at once, before any of them is interpreted. */
  function DecHeader(b: seq<Byte>): Read<Header> {
    if |b| < 14 then Err else
    Powers();
    var c := ReadUint(b, 2);
    var w := ReadUint(c.rest, 2);
    var s := ReadUint(w.rest, 8);
    var f := ReadUint(s.rest, 2);
    var ps := P.ReadFrom(BASIC, 0, f.value, f.rest);
    if ps.Err? then Err else Ok(Header(c.value, w.value, s.value, ps.value), ps.rest)
  }

  function NormHeader(h: Header): Header {
    h.(props := P.NormProps(h.props))
  }

  ghost predicate HeaderFits(h: Header) {
    P.AllHold(BASIC, h.props)
  }

  lemma HeaderRoundTrip(h: Header, rest: seq<Byte>)
    requires HeaderFits(h) && P.AllWritable(h.props)
    ensures DecHeader(EncHeader(h) + rest) == Ok(NormHeader(h), rest)
  {
    var flags, body := P.FlagsOf(h.props), P.Body(BASIC, h.props) + rest;
    P.FlagsAnnounce(h.props);
    P.PropsRoundTrip(BASIC, flags, h.props, rest);
    FixedPart(h.classId, h.weight, h.bodySize, flags, body);
    EncHeaderWith(h, rest);
  }

  lemma EncHeaderWith(h: Header, rest: seq<Byte>)
    requires |h.props| == |BASIC|
    ensures var flags, body := Be(P.FlagsOf(h.props), 2), P.Body(BASIC, h.props);
            EncHeader(h) + rest == Be(h.classId, 2) + (Be(h.weight, 2) + (Be(h.bodySize, 8) + (flags + (body + rest))))
  {
    var flags, body := Be(P.FlagsOf(h.props), 2), P.Body(BASIC, h.props);
    RegroupHeader(Be(h.classId, 2), Be(h.weight, 2), Be(h.bodySize, 8), flags, body, rest);
  }

  lemma RegroupHeader(a: seq<Byte>, b: seq<Byte>, c: seq<Byte>, d: seq<Byte>, e: seq<Byte>, f: seq<Byte>)
    ensures a + (b + (c + (d + e))) + f == a + (b + (c + (d + (e + f))))
  {
  }

  lemma FixedPart(c: U16, w: U16, s: U64, f: U16, body: seq<Byte>)
    ensures var b := Be(c, 2) + (Be(w, 2) + (Be(s, 8) + (Be(f, 2) + body)));
            && |b| >= 14 && ReadUint(b, 2) == Ok(c, Be(w, 2) + (Be(s, 8) + (Be(f, 2) + body)))
            && ReadUint(Be(w, 2) + (Be(s, 8) + (Be(f, 2) + body)), 2) == Ok(w, Be(s, 8) + (Be(f, 2) + body))
            && ReadUint(Be(s, 8) + (Be(f, 2) + body), 8) == Ok(s, Be(f, 2) + body)
            && ReadUint(Be(f, 2) + body, 2) == Ok(f, body)
  {
    Powers();
    ReadUintOfBe(c, 2, Be(w, 2) + (Be(s, 8) + (Be(f, 2) + body)));
    ReadUintOfBe(w, 2, Be(s, 8) + (Be(f, 2) + body));
    ReadUintOfBe(s, 8, Be(f, 2) + body);
    ReadUintOfBe(f, 2, body);
  }

  // ---------------------------------------------------------------- messages

  function Marshal(m: Stored): Option<seq<Byte>>
    requires |m.header.props| == |BASIC|
  {
    if !P.AllWritable(m.header.props) then None else
    var tail := WriteShortstr(m.exchange) + (WriteShortstr(m.key) + EncFrames(m.frames));
    Some(Be(m.id, 8) + (EncHeader(m.header) + tail))
  }

  function Unmarshal(b: seq<Byte>): Option<Stored> {
    Powers();
    var id := ReadUint(b, 8);
    if id.Err? then None else
    var h := DecHeader(id.rest);
    if h.Err? then None else
    var tail := DecTail(h.rest, h.value.bodySize);
    if tail.Err? then None else
    var (x, k, fs) := tail.value;
    Some(Stored(id.value, h.value, x, k, fs))
  }

  /** Exchange, routing key and body frames. */
  function DecTail(b: seq<Byte>, target: nat): Read<(seq<Byte>, seq<Byte>, seq<Frame>)> {
    var x := ReadShortstr(b);
    if x.Err? then Err else
    var k := ReadShortstr(x.rest);
    if k.Err? then Err else
    var fs := DecFrames(k.rest, 0, target);
    if fs.Err? then Err else Ok((x.value, k.value, fs.value), fs.rest)
  }

  ghost predicate Fits(m: Stored) {
    HeaderFits(m.header) && |m.exchange| < WORD8 && |m.key| < WORD8 && FramesFit(m.frames)
  }

  function NormMessage(m: Stored): Stored {
    m.(header := NormHeader(m.header))
  }

  lemma TailReads(m: Stored, b: seq<Byte>)
    requires |m.exchange| < WORD8 && |m.key| < WORD8
    requires b == WriteShortstr(m.exchange) + (WriteShortstr(m.key) + EncFrames(m.frames))
    ensures DecTail(b, m.header.bodySize) == match DecFrames(EncFrames(m.frames), 0, m.header.bodySize)
                                             case Ok(fs, rest) => Ok((m.exchange, m.key, fs), rest)
                                             case Err => Err
  {
    ShortstrRoundTripIff(m.exchange, WriteShortstr(m.key) + EncFrames(m.frames));
    ShortstrRoundTripIff(m.key, EncFrames(m.frames));
  }

  /** What Unmarshal makes of a marshalled message: everything but the body is always recovered. */
  lemma Recovered(m: Stored)
    requires Fits(m) && P.AllWritable(m.header.props)
    ensures Marshal(m).Some?
    ensures Unmarshal(Marshal(m).value) == match DecFrames(EncFrames(m.frames), 0, m.header.bodySize)
                                           case Ok(fs, rest) => Some(NormMessage(m).(frames := fs))
                                           case Err => None
  {
    var tail := WriteShortstr(m.exchange) + (WriteShortstr(m.key) + EncFrames(m.frames));
    Powers();
    ReadUintOfBe(m.id, 8, EncHeader(m.header) + tail);
    HeaderRoundTrip(m.header, tail);
    TailReads(m, tail);
  }

  /** A stored message is restored, headers normalised, exactly when its body frames first reach the announced
      body size at the last frame. */
  lemma StoredRoundTripIff(m: Stored)
    requires Fits(m) && P.AllWritable(m.header.props)
    ensures Marshal(m).Some?
    ensures Unmarshal(Marshal(m).value) == Some(NormMessage(m)) <==> Reaches(m.frames, 0, m.header.bodySize)
  {
    Recovered(m);
    assert EncFrames(m.frames) + [] == EncFrames(m.frames);
    if Reaches(m.frames, 0, m.header.bodySize) {
      FramesRoundTrip(m.frames, 0, m.header.bodySize, []);
    } else if DecFrames(EncFrames(m.frames), 0, m.header.bodySize).Ok? {
      ReadFramesReach(EncFrames(m.frames), 0, m.header.bodySize);
    }
  }

  /** A body frame of a message that announces no body is dropped. */
  lemma UnannouncedFrameLost(m: Stored)
    requires Fits(m) && P.AllWritable(m.header.props) && m.header.bodySize == 0
    ensures Marshal(m).Some? && Unmarshal(Marshal(m).value) == Some(NormMessage(m).(frames := []))
  {
    Recovered(m);
  }

  /** What the store keeps of a message: the flush ignores a failed Marshal and writes an empty value. */
  function StoredBytes(m: Stored): seq<Byte>
    requires |m.header.props| == |BASIC|
  {
    if Marshal(m).None? then [] else Marshal(m).value
  }

  /** A message survives the store exactly when its headers can be written and its frames reach the announced
      size with the last one. */
  lemma PersistedIff(m: Stored)
    requires Fits(m)
    ensures Unmarshal(StoredBytes(m)) == Some(NormMessage(m)) <==>
              P.AllWritable(m.header.props) && Reaches(m.frames, 0, m.header.bodySize)
  {
    if P.AllWritable(m.header.props) {
      StoredRoundTripIff(m);
    } else {
      assert ReadUint([], 8).Err?;
    }
  }

  /** No header value holds a table inside. */
  predicate Flat(ps: P.Props) {
    forall i :: 0 <= i < |ps| ==> FlatProp(ps[i])
  }

  predicate FlatProp(p: Option<Datum>) {
    p.Some? && p.value.Entries? ==> forall k :: 0 <= k < |p.value.es| ==> !T.HasTable(p.value.es[k].value)
  }

  lemma {:induction false} NormPropAt(ps: P.Props, i: nat)
    requires i < |ps|
    ensures P.NormProps(ps)[i] == P.NormProp(ps[i])
  {
    if i > 0 { NormPropAt(ps[1..], i - 1); }
  }

  lemma {:induction false} PropRewritable(p: Option<Datum>)
    requires p.Some? ==> Writable(p.value)
    ensures var q := P.NormProp(p);
            (q.Some? ==> Writable(q.value)) <==> FlatProp(p)
  {
    if p.Some? && p.value.Entries? { T.TableRewritableIff(p.value.es); }
  }

  /** A restored message can be stored again, as an update or a requeue of a persistent message does, exactly
      when its headers do not nest a table. */
  lemma SecondMarshalIff(m: Stored)
    requires |m.header.props| == |BASIC| && P.AllWritable(m.header.props)
    ensures Marshal(NormMessage(m)).Some? <==> Flat(m.header.props)
  {
    var ps := m.header.props;
    var qs := P.NormProps(ps);
    forall i | 0 <= i < |ps| ensures (qs[i].Some? ==> Writable(qs[i].value)) <==> FlatProp(ps[i]) {
      NormPropAt(ps, i);
      PropRewritable(ps[i]);
    }
    assert P.AllWritable(qs) <==> Flat(ps);
  }

  // ---------------------------------------------------------------- the code

  /** WriteContentHeader: the properties go to a buffer of their own because the flags precede them. */
  method WriteContentHeader(w: IO.Buffer, h: Header) returns (ok: bool)
    requires |h.props| == |BASIC|
    modifies w
    ensures ok == P.AllWritable(h.props)
    ensures ok ==> w.bytes == old(w.bytes) + EncHeader(h)
  {
    ghost var before := w.bytes;
    w.bytes := w.bytes + Be(h.classId, 2);
    w.bytes := w.bytes + Be(h.weight, 2);
    w.bytes := w.bytes + Be(h.bodySize, 8);
    var propertyBuf := new IO.Buffer();
    var flags;
    ok, flags := P.WriteProps(propertyBuf, BASIC, h.props);
    if !ok { return; }
    w.bytes := w.bytes + Be(flags, 2);
    w.bytes := w.bytes + propertyBuf.bytes;
    Regroup(before, Be(h.classId, 2), Be(h.weight, 2), Be(h.bodySize, 8), Be(flags, 2), propertyBuf.bytes);
  }

  lemma Regroup(a: seq<Byte>, b: seq<Byte>, c: seq<Byte>, d: seq<Byte>, e: seq<Byte>, f: seq<Byte>)
    ensures a + b + c + d + e + f == a + (b + (c + (d + (e + f))))
  {
  }

  lemma {:induction false} FramesSnoc(fs: seq<Frame>, f: Frame)
    ensures EncFrames(fs + [f]) == EncFrames(fs) + EncFrame(f)
  {
    if fs == [] {
      assert [] + [f] == [f] && [f][1..] == [];
      assert EncFrames([f]) == EncFrame(f) + [];
    } else {
      FramesSnoc(fs[1..], f);
      assert (fs + [f])[1..] == fs[1..] + [f];
      assert EncFrame(fs[0]) + (EncFrames(fs[1..]) + EncFrame(f)) == EncFrame(fs[0]) + EncFrames(fs[1..]) + EncFrame(f);
    }
  }

  lemma Joined(b: seq<Byte>, c: seq<Byte>, d: seq<Byte>, e: seq<Byte>, f: seq<Byte>)
    ensures [] + b + c + d + e + f == b + (c + (d + (e + f)))
  {
  }

  method WriteFrames(w: IO.Buffer, fs: seq<Frame>)
    modifies w
    ensures w.bytes == old(w.bytes) + EncFrames(fs)
  {
    ghost var start := w.bytes;
    assert start + [] == start;
    for i := 0 to |fs|
      invariant w.bytes == start + EncFrames(fs[..i])
    {
      FramesSnoc(fs[..i], fs[i]);
      assert fs[..i + 1] == fs[..i] + [fs[i]];
      assert start + EncFrames(fs[..i]) + EncFrame(fs[i]) == start + (EncFrames(fs[..i]) + EncFrame(fs[i]));
      w.bytes := w.bytes + EncFrame(fs[i]);
    }
    assert fs[..|fs|] == fs;
  }

  class Message {
    var id: U64
    var header: Header
    var exchange: seq<Byte>
    var key: seq<Byte>
    var body: seq<Frame>
    var bodySize: U64

    constructor ()
      ensures body == [] && bodySize == 0
    {
      id, exchange, key, body, bodySize := 0, [], [], [], 0;
      header := Header(0, 0, 0, []);
    }

    function Value(): Stored
      reads this
    {
      Stored(id, header, exchange, key, body)
    }

    method Append(f: Frame)
      modifies `body, `bodySize
      ensures body == old(body) + [f] && bodySize == Grown(old(bodySize), f)
    {
      body := body + [f];
      bodySize := (bodySize + |f.payload|) % WORD64;
    }

    method MarshalTo() returns (data: Option<seq<Byte>>)
      requires |header.props| == |BASIC|
      ensures data == Marshal(Value())
    {
      var buffer := new IO.Buffer();
      buffer.bytes := buffer.bytes + Be(id, 8);
      var ok := WriteContentHeader(buffer, header);
      if !ok { return None; }
      buffer.bytes := buffer.bytes + WriteShortstr(exchange);
      buffer.bytes := buffer.bytes + WriteShortstr(key);
      WriteFrames(buffer, body);
      Joined(Be(id, 8), EncHeader(header), WriteShortstr(exchange), WriteShortstr(key), EncFrames(body));
      data := Some(buffer.bytes);
    }

    /** The loop that reads frames until the announced size is reached. */
    method ReadBody(reader: IO.Reader) returns (ok: bool)
      requires body == [] && bodySize == 0
      modifies reader, `body, `bodySize
      ensures match DecFrames(old(reader.left), 0, header.bodySize)
              case Ok(fs, rest) => ok && body == fs && reader.left == rest && bodySize >= header.bodySize
              case Err => !ok
    {
      ghost var all := DecFrames(reader.left, 0, header.bodySize);
      Extended([], all);
      while bodySize < header.bodySize
        invariant all == Extend(body, DecFrames(reader.left, bodySize, header.bodySize))
        decreases |reader.left|
      {
        var f := DecFrame(reader.left);
        if f.Err? { return false; }
        ExtendOne(body, f.value, DecFrames(f.rest, Grown(bodySize, f.value), header.bodySize));
        reader.left := f.rest;
        Append(f.value);
      }
      assert body + [] == body;
      ok := true;
    }

    method UnmarshalFrom(data: seq<Byte>) returns (ok: bool)
      requires body == [] && bodySize == 0
      modifies this
      ensures match Unmarshal(data)
              case Some(m) => ok && Value() == m && bodySize >= header.bodySize
              case None => !ok
    {
      Powers();
      var i := ReadUint(data, 8);
      if i.Err? { return false; }
      id := i.value;
      var h := DecHeader(i.rest);
      if h.Err? { return false; }
      header := h.value;
      var x := ReadShortstr(h.rest);
      if x.Err? { return false; }
      exchange := x.value;
      var k := ReadShortstr(x.rest);
      if k.Err? { return false; }
      key := k.value;
      var reader := new IO.Reader(k.rest);
      ok := ReadBody(reader);
    }
  }

  ghost function Extend(fs: seq<Frame>, more: Read<seq<Frame>>): Read<seq<Frame>> {
    if more.Err? then Err else Ok(fs + more.value, more.rest)
  }

  lemma Extended(fs: seq<Frame>, more: Read<seq<Frame>>)
    requires fs == []
    ensures Extend(fs, more) == more
  {
    if more.Ok? { assert fs + more.value == more.value; }
  }

  lemma ExtendOne(fs: seq<Frame>, f: Frame, more: Read<seq<Frame>>)
    ensures Extend(fs, if more.Err? then Err else Ok([f] + more.value, more.rest)) == Extend(fs + [f], more)
  {
    if more.Ok? { assert fs + ([f] + more.value) == fs + [f] + more.value; }
  }
}
