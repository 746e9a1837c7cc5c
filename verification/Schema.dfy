/**
 The schema compiler: how Amqp.SaveMethods (protocol/protogen.go) annotates the fields
 of a method, and what the Read and Write code emitted for the annotated fields
 (protocol/templates.go) does.
 */
module Schema {
  import opened Bytes
  import opened Fields
  import opened Words

  /** A field record after annotation. */
  datatype Field = Field(kind: Kind, bitOrder: nat, lastBit: bool)

  predicate IsBitAt(kinds: seq<Kind>, i: int) {
    0 <= i < |kinds| && kinds[i] == Bit
  }

  /** How many bit fields stand directly before position i. */
  function RunBefore(kinds: seq<Kind>, i: nat): nat {
    if i == 0 || !IsBitAt(kinds, i - 1) then 0 else 1 + RunBefore(kinds, i - 1)
  }

  /** What the annotation has to be: a bit's order is its place in its run of consecutive bits, and the last
      bit of every run, and nothing else, is marked. */
  ghost predicate Annotated(kinds: seq<Kind>, fs: seq<Field>) {
    && |fs| == |kinds|
    && (forall i :: 0 <= i < |fs| ==> fs[i].kind == kinds[i])
    && (forall i :: 0 <= i < |fs| && kinds[i] == Bit ==> fs[i].bitOrder == RunBefore(kinds, i))
    && (forall i :: 0 <= i < |fs| ==> (fs[i].lastBit <==> kinds[i] == Bit && !IsBitAt(kinds, i + 1)))
  }

  /** The loop of SaveMethods over one method's fields. */
  method SaveMethod(kinds: seq<Kind>) returns (fs: seq<Field>)
    ensures Annotated(kinds, fs)
  {
    fs := seq(|kinds|, i requires 0 <= i < |kinds| => Field(kinds[i], 0, false));
    var bitOrder := 0;
    for idx := 0 to |kinds|
      invariant |fs| == |kinds| && forall i :: 0 <= i < |fs| ==> fs[i].kind == kinds[i]
      invariant bitOrder == if idx == |kinds| then 0 else RunBefore(kinds, idx)
      invariant AnnotatedTo(kinds, fs, idx)
    {
      ghost var was := fs;
      fs := fs[idx := fs[idx].(lastBit := false)];
      if kinds[idx] == Bit {
        fs := fs[idx := fs[idx].(bitOrder := bitOrder)];
        bitOrder := bitOrder + 1;
      } else if bitOrder > 0 {
        fs := fs[idx - 1 := fs[idx - 1].(lastBit := true)];
        bitOrder := 0;
      }
      if kinds[idx] == Bit && idx + 1 == |kinds| {
        fs := fs[idx := fs[idx].(lastBit := true)];
        bitOrder := 0;
      }
      OneTurn(kinds, was, fs, idx);
    }
  }

  /** The first n fields are annotated, except that the last of them is not marked before the next is seen. */
  ghost predicate AnnotatedTo(kinds: seq<Kind>, fs: seq<Field>, n: nat)
    requires |fs| == |kinds|
  {
    && n <= |fs|
    && (forall i :: 0 <= i < n && kinds[i] == Bit ==> fs[i].bitOrder == RunBefore(kinds, i))
    && (forall i :: 0 <= i < n - 1 ==> (fs[i].lastBit <==> kinds[i] == Bit && !IsBitAt(kinds, i + 1)))
    && (0 < n ==> (fs[n - 1].lastBit <==> n == |kinds| && kinds[n - 1] == Bit))
  }

  /** One turn of the loop writes field idx and may mark the one before it. */
  lemma OneTurn(kinds: seq<Kind>, was: seq<Field>, fs: seq<Field>, idx: nat)
    requires |was| == |fs| == |kinds| && idx < |kinds| && AnnotatedTo(kinds, was, idx)
    requires forall i :: 0 <= i < idx - 1 ==> fs[i] == was[i]
    requires 0 < idx ==> fs[idx - 1].bitOrder == was[idx - 1].bitOrder
    requires 0 < idx ==> (fs[idx - 1].lastBit <==> kinds[idx - 1] == Bit && kinds[idx] != Bit)
    requires kinds[idx] == Bit ==> fs[idx].bitOrder == RunBefore(kinds, idx)
    requires fs[idx].lastBit <==> idx + 1 == |kinds| && kinds[idx] == Bit
    ensures AnnotatedTo(kinds, fs, idx + 1)
  {
  }

  // ---------------------------------------------------------------- when the emitted code is Go

  /** The emitted code declares its bits variable once per run and shifts a constant into a byte, so it
      compiles when there is at most one field of order 0 and every order is below 8. */
  ghost predicate Compiles(fs: seq<Field>) {
    && (forall i :: 0 <= i < |fs| && fs[i].kind == Bit ==> fs[i].bitOrder < 8)
    && (forall i, j :: 0 <= i < j < |fs| && fs[i].kind == Bit && fs[j].kind == Bit ==>
          fs[i].bitOrder != 0 || fs[j].bitOrder != 0)
  }

  /** One run of at most eight bits. */
  ghost predicate OneShortRun(kinds: seq<Kind>) {
    forall i, j, k :: 0 <= i <= j <= k < |kinds| && kinds[i] == Bit && kinds[k] == Bit ==>
      kinds[j] == Bit && k - i < 8
  }

  lemma {:induction false} RunIsBits(kinds: seq<Kind>, i: nat, j: nat)
    requires i <= |kinds| && i - RunBefore(kinds, i) <= j < i
    ensures kinds[j] == Bit
  {
    if j < i - 1 { RunIsBits(kinds, i - 1, j); }
  }

  lemma {:induction false} RunReaches(kinds: seq<Kind>, i: nat, k: nat)
    requires i <= k <= |kinds| && forall j :: i <= j < k ==> kinds[j] == Bit
    ensures RunBefore(kinds, k) >= k - i
  {
    if i < k { RunReaches(kinds, i, k - 1); }
  }

  lemma {:induction false} RunStart(kinds: seq<Kind>, k: nat) returns (s: nat)
    requires k < |kinds| && kinds[k] == Bit
    ensures s == k - RunBefore(kinds, k) && kinds[s] == Bit && RunBefore(kinds, s) == 0
  {
    s := k;
    if RunBefore(kinds, k) > 0 { s := RunStart(kinds, k - 1); }
  }

  lemma CompilesGivesOneRun(kinds: seq<Kind>, fs: seq<Field>, i: nat, j: nat, k: nat)
    requires Annotated(kinds, fs) && Compiles(fs)
    requires i <= j <= k < |kinds| && kinds[i] == Bit && kinds[k] == Bit
    ensures kinds[j] == Bit && k - i < 8
  {
    var s := RunStart(kinds, k);
    var t := RunStart(kinds, i);
    assert fs[s].bitOrder == 0 && fs[t].bitOrder == 0;
    assert s == t;
    if j < k { RunIsBits(kinds, k, j); }
    assert fs[k].bitOrder < 8;
  }

  /** The generator emits code that compiles exactly for the schemas with one short run of bits per method. */
  lemma CompilesIff(kinds: seq<Kind>, fs: seq<Field>)
    requires Annotated(kinds, fs)
    ensures Compiles(fs) <==> OneShortRun(kinds)
  {
    if Compiles(fs) {
      forall i: int, j: int, k: int | 0 <= i <= j <= k < |kinds| && kinds[i] == Bit && kinds[k] == Bit
        ensures kinds[j] == Bit && k - i < 8
      {
        CompilesGivesOneRun(kinds, fs, i, j, k);
      }
    }
    if OneShortRun(kinds) {
      forall i | 0 <= i < |fs| && fs[i].kind == Bit ensures fs[i].bitOrder < 8 {
        var s := RunStart(kinds, i);
      }
      forall i, j | 0 <= i < j < |fs| && fs[i].kind == Bit && fs[j].kind == Bit
        ensures fs[j].bitOrder != 0
      {
        RunReaches(kinds, i, j);
      }
    }
  }

  // ---------------------------------------------------------------- the emitted Write and Read

  ghost predicate AllHold(fs: seq<Field>, ds: seq<Datum>) {
    |fs| == |ds| && forall i :: 0 <= i < |fs| ==> Holds(fs[i].kind, ds[i]) && Writable(ds[i])
  }

  /** What the annotated fields of a compiling schema look like from any position on: orders count up within
      a run, a run ends with its mark, and no run starts anywhere but at 0. */
  ghost predicate Chained(fs: seq<Field>) {
    forall i :: 0 <= i < |fs| ==> Link(fs, i)
  }

  ghost predicate Link(fs: seq<Field>, i: nat)
    requires i < |fs|
  {
    && (fs[i].kind == Bit ==> fs[i].bitOrder < 8)
    && (fs[i].kind == Bit && !fs[i].lastBit ==>
          i + 1 < |fs| && fs[i + 1].kind == Bit && fs[i + 1].bitOrder == fs[i].bitOrder + 1)
    && ((fs[i].kind == Bit ==> fs[i].lastBit) ==> !Mid(fs[i + 1..]))
  }

  /** In the middle of a run. */
  predicate Mid(fs: seq<Field>) {
    fs != [] && fs[0].kind == Bit && fs[0].bitOrder > 0
  }

  function Marked(bits: nat, f: Field, d: Datum): nat {
    var start := if f.bitOrder == 0 then 0 else bits;
    if d.Flag? && d.b then SetBit(start, f.bitOrder) else start
  }

  /** The emitted Write; bits is its local variable. */
  function Emit(fs: seq<Field>, ds: seq<Datum>, bits: nat): seq<Byte>
    requires |fs| == |ds|
  {
    if fs == [] then []
    else if fs[0].kind == Bit then
      var next := Marked(bits, fs[0], ds[0]);
      (if fs[0].lastBit then [next % WORD8] else []) + Emit(fs[1..], ds[1..], next)
    else EncField(fs[0].kind, ds[0]) + Emit(fs[1..], ds[1..], bits)
  }

  /** The emitted Read. */
  function Parse(fs: seq<Field>, b: seq<Byte>, bits: nat): Read<seq<Datum>>
    decreases |fs|
  {
    if fs == [] then Ok([], b)
    else if fs[0].kind == Bit then
      if fs[0].bitOrder == 0 then
        if b == [] then Err else Then(Flag(BitAt(b[0], 0)), Parse(fs[1..], b[1..], b[0]))
      else Then(Flag(BitAt(bits, fs[0].bitOrder)), Parse(fs[1..], b, bits))
    else
      var d := DecField(fs[0].kind, b);
      if d.Err? then Err else Then(d.value, Parse(fs[1..], d.rest, bits))
  }

  function Then(d: Datum, more: Read<seq<Datum>>): Read<seq<Datum>> {
    if more.Err? then Err else Ok([d] + more.value, more.rest)
  }

  function NormAll(ds: seq<Datum>): seq<Datum> {
    if ds == [] then [] else [NormDatum(ds[0])] + NormAll(ds[1..])
  }

  /** The octet the current run ends in. */
  function Octet(fs: seq<Field>, ds: seq<Datum>, bits: nat): nat
    requires |fs| == |ds|
  {
    if fs == [] || fs[0].kind != Bit then bits
    else
      var next := Marked(bits, fs[0], ds[0]);
      if fs[0].lastBit then next else Octet(fs[1..], ds[1..], next)
  }

  /** What Write puts out after that octet. */
  function AfterRun(fs: seq<Field>, ds: seq<Datum>): seq<Byte>
    requires |fs| == |ds|
  {
    if fs == [] || fs[0].kind != Bit then []
    else if fs[0].lastBit then Emit(fs[1..], ds[1..], 0)
    else AfterRun(fs[1..], ds[1..])
  }

  /** bits has nothing at or above position n. */
  ghost predicate Below(bits: nat, n: nat) {
    bits < Pow(2, 8) && forall j :: n <= j ==> !BitAt(bits, j)
  }

  lemma MarkedBelow(bits: nat, f: Field, d: Datum)
    requires f.bitOrder < 8 && d.Flag? && (f.bitOrder > 0 ==> Below(bits, f.bitOrder))
    ensures Below(Marked(bits, f, d), f.bitOrder + 1)
    ensures BitAt(Marked(bits, f, d), f.bitOrder) == d.b
    ensures forall j :: 0 <= j < f.bitOrder ==> BitAt(Marked(bits, f, d), j) == BitAt(bits, j)
  {
    var start := if f.bitOrder == 0 then 0 else bits;
    assert Below(start, f.bitOrder) by {
      if f.bitOrder == 0 {
        EightBits();
        forall j: nat ensures !BitAt(0, j) { NoBits(j); }
      }
    }
    SetBitBounded(start, f.bitOrder, 8);
    forall j: nat ensures BitAt(SetBit(start, f.bitOrder), j) <==> f.bitOrder == j || BitAt(start, j) {
      SetBitSets(start, f.bitOrder, j);
    }
  }

  lemma EightBits()
    ensures Pow(2, 8) == WORD8
  {
    assert Pow(2, 4) == 2 * Pow(2, 3) == 16;
    assert Pow(2, 8) == 2 * Pow(2, 7) == 4 * Pow(2, 6) == 8 * Pow(2, 5) == 16 * Pow(2, 4);
  }

  lemma ChainedTail(fs: seq<Field>)
    requires Chained(fs) && fs != []
    ensures Chained(fs[1..])
  {
    forall i | 0 <= i < |fs[1..]| ensures Link(fs[1..], i) {
      assert Link(fs, i + 1);
      assert fs[1..][i + 1..] == fs[i + 2..];
    }
  }

  /** The value of bits does not matter unless in the middle of a run. */
  lemma {:induction false} EmitIgnoresBits(fs: seq<Field>, ds: seq<Datum>, x: nat, y: nat)
    requires |fs| == |ds| && Chained(fs) && !Mid(fs)
    ensures Emit(fs, ds, x) == Emit(fs, ds, y)
  {
    if fs != [] && fs[0].kind != Bit {
      ChainedTail(fs);
      assert Link(fs, 0);
      EmitIgnoresBits(fs[1..], ds[1..], x, y);
    }
  }

  /** A run is written as one octet, which keeps every bit already collected. */
  lemma {:induction false} RunIsOneOctet(fs: seq<Field>, ds: seq<Datum>, bits: nat)
    requires Chained(fs) && AllHold(fs, ds) && fs != [] && fs[0].kind == Bit
    requires fs[0].bitOrder > 0 ==> Below(bits, fs[0].bitOrder)
    ensures Octet(fs, ds, bits) < WORD8
    ensures Emit(fs, ds, bits) == [Octet(fs, ds, bits)] + AfterRun(fs, ds)
    ensures forall j :: 0 <= j < fs[0].bitOrder ==> BitAt(Octet(fs, ds, bits), j) == BitAt(bits, j)
    ensures BitAt(Octet(fs, ds, bits), fs[0].bitOrder) == ds[0].b
  {
    var next := Marked(bits, fs[0], ds[0]);
    assert Link(fs, 0) && Holds(fs[0].kind, ds[0]);
    MarkedBelow(bits, fs[0], ds[0]);
    ChainedTail(fs);
    EightBits();
    if fs[0].lastBit {
      EmitIgnoresBits(fs[1..], ds[1..], next, 0);
      RunEnds(fs, ds, bits);
    } else {
      assert fs[1..][0] == fs[1];
      RunIsOneOctet(fs[1..], ds[1..], next);
      assert Emit(fs, ds, bits) == [] + Emit(fs[1..], ds[1..], next);
    }
  }

  lemma RunEnds(fs: seq<Field>, ds: seq<Datum>, bits: nat)
    requires |fs| == |ds| && fs != [] && fs[0].kind == Bit && fs[0].lastBit && Marked(bits, fs[0], ds[0]) < WORD8
    requires Emit(fs[1..], ds[1..], Marked(bits, fs[0], ds[0])) == Emit(fs[1..], ds[1..], 0)
    ensures Emit(fs, ds, bits) == [Octet(fs, ds, bits)] + AfterRun(fs, ds)
  {
  }

  /** Reading inside a run whose octet has been fetched already. */
  lemma {:induction false} RunReadBack(fs: seq<Field>, ds: seq<Datum>, bits: nat, rest: seq<Byte>)
    requires Chained(fs) && AllHold(fs, ds) && Mid(fs) && Below(bits, fs[0].bitOrder)
    ensures Parse(fs, AfterRun(fs, ds) + rest, Octet(fs, ds, bits)) == Ok(NormAll(ds), rest)
    decreases |fs|
  {
    var next := Marked(bits, fs[0], ds[0]);
    RunIsOneOctet(fs, ds, bits);
    ContinueRun(fs, ds, bits, rest);
    assert Holds(fs[0].kind, ds[0]);
    assert ds[0] == Flag(BitAt(Octet(fs, ds, bits), fs[0].bitOrder));
  }

  /** The fields after the first bit of a run. */
  lemma {:induction false} ContinueRun(fs: seq<Field>, ds: seq<Datum>, bits: nat, rest: seq<Byte>)
    requires Chained(fs) && AllHold(fs, ds) && fs != [] && fs[0].kind == Bit
    requires fs[0].bitOrder > 0 ==> Below(bits, fs[0].bitOrder)
    ensures Parse(fs[1..], AfterRun(fs, ds) + rest, Octet(fs, ds, bits)) == Ok(NormAll(ds[1..]), rest)
    decreases |fs|, 0
  {
    var next := Marked(bits, fs[0], ds[0]);
    assert Link(fs, 0) && Holds(fs[0].kind, ds[0]);
    MarkedBelow(bits, fs[0], ds[0]);
    ChainedTail(fs);
    if fs[0].lastBit {
      FieldsReadBack(fs[1..], ds[1..], 0, next, rest);
    } else {
      assert fs[1..][0] == fs[1];
      RunReadBack(fs[1..], ds[1..], next, rest);
    }
  }

  lemma {:induction false} FieldsReadBack(fs: seq<Field>, ds: seq<Datum>, x: nat, y: nat, rest: seq<Byte>)
    requires Chained(fs) && AllHold(fs, ds) && !Mid(fs)
    ensures Parse(fs, Emit(fs, ds, x) + rest, y) == Ok(NormAll(ds), rest)
    decreases |fs|
  {
    if fs == [] {
      assert [] + rest == rest;
    } else if fs[0].kind == Bit {
      RunIsOneOctet(fs, ds, x);
      ContinueRun(fs, ds, x, rest);
      StartRun(fs, ds, x, y, rest);
    } else {
      assert Link(fs, 0);
      ChainedTail(fs);
      FieldsReadBack(fs[1..], ds[1..], x, y, rest);
      StartPlain(fs, ds, x, y, rest);
    }
  }

  /** Reading the octet at the start of a run. */
  lemma StartRun(fs: seq<Field>, ds: seq<Datum>, x: nat, y: nat, rest: seq<Byte>)
    requires |fs| == |ds| && fs != [] && fs[0].kind == Bit && fs[0].bitOrder == 0 && ds[0].Flag?
    requires Octet(fs, ds, x) < WORD8 && BitAt(Octet(fs, ds, x), 0) == ds[0].b
    requires Emit(fs, ds, x) == [Octet(fs, ds, x)] + AfterRun(fs, ds)
    requires Parse(fs[1..], AfterRun(fs, ds) + rest, Octet(fs, ds, x)) == Ok(NormAll(ds[1..]), rest)
    ensures Parse(fs, Emit(fs, ds, x) + rest, y) == Ok(NormAll(ds), rest)
  {
    var b := Emit(fs, ds, x) + rest;
    assert b[0] == Octet(fs, ds, x) && b[1..] == AfterRun(fs, ds) + rest;
  }

  /** Reading a field that is not a bit. */
  lemma StartPlain(fs: seq<Field>, ds: seq<Datum>, x: nat, y: nat, rest: seq<Byte>)
    requires |fs| == |ds| && fs != [] && fs[0].kind != Bit && Holds(fs[0].kind, ds[0]) && Writable(ds[0])
    requires Parse(fs[1..], Emit(fs[1..], ds[1..], x) + rest, y) == Ok(NormAll(ds[1..]), rest)
    ensures Parse(fs, Emit(fs, ds, x) + rest, y) == Ok(NormAll(ds), rest)
  {
    var tail := Emit(fs[1..], ds[1..], x) + rest;
    EmitPlain(fs, ds, x, rest);
    FieldRoundTrip(fs[0].kind, ds[0], tail);
    ParsePlain(fs, Emit(fs, ds, x) + rest, NormDatum(ds[0]), tail, y);
  }

  lemma EmitPlain(fs: seq<Field>, ds: seq<Datum>, x: nat, rest: seq<Byte>)
    requires |fs| == |ds| && fs != [] && fs[0].kind != Bit
    ensures Emit(fs, ds, x) + rest == EncField(fs[0].kind, ds[0]) + (Emit(fs[1..], ds[1..], x) + rest)
  {
  }

  lemma ParsePlain(fs: seq<Field>, b: seq<Byte>, d: Datum, tail: seq<Byte>, y: nat)
    requires fs != [] && fs[0].kind != Bit && DecField(fs[0].kind, b) == Ok(d, tail)
    ensures Parse(fs, b, y) == Then(d, Parse(fs[1..], tail, y))
  {
  }

  lemma AnnotatedIsChained(kinds: seq<Kind>, fs: seq<Field>)
    requires Annotated(kinds, fs) && forall i :: 0 <= i < |kinds| && kinds[i] == Bit ==> RunBefore(kinds, i) < 8
    ensures Chained(fs) && !Mid(fs)
  {
    forall i | 0 <= i < |fs| ensures Link(fs, i) {
      if i + 1 < |fs| { assert fs[i + 1..][0] == fs[i + 1]; }
    }
  }

  /** The generator's theorem: for every method whose runs of bits are at most eight long, however many fields
      and runs it has, the emitted Read undoes the emitted Write and consumes exactly the bytes written. */
  lemma GeneratedRoundTrip(kinds: seq<Kind>, fs: seq<Field>, ds: seq<Datum>, rest: seq<Byte>)
    requires Annotated(kinds, fs) && AllHold(fs, ds)
    requires forall i :: 0 <= i < |kinds| && kinds[i] == Bit ==> RunBefore(kinds, i) < 8
    ensures Parse(fs, Emit(fs, ds, 0) + rest, 0) == Ok(NormAll(ds), rest)
  {
    AnnotatedIsChained(kinds, fs);
    FieldsReadBack(fs, ds, 0, 0, rest);
  }
}
