/**
 Property lists: optional fields announced by a flag word, as emitted from
 protocol/templates.go and as generated for BasicPropertyList in amqp/methods_generated.go.
 */
module Properties {
  import opened Bytes
  import opened Options
  import opened Fields
  import opened Words
  import IO = TableIO
  import Seqs

  /** A present or absent value per field, in schema order. */
  type Props = seq<Option<Datum>>

  /** headerIndex of SaveMethods: 15 for the first field, one less for each that follows. */
  function FlagIndex(i: nat): (k: nat)
    requires i < 16
    ensures k < 16
  {
    15 - i
  }

  /** The flag word announces exactly the present fields. */
  ghost predicate Announces(flags: nat, ps: Props) {
    flags < WORD16 && forall j: nat :: BitAt(flags, j) <==> j < 16 && 15 - j < |ps| && ps[15 - j].Some?
  }

  /** Every field of a class of at most 16 has a flag of its own: the word alone tells which are present, and
      with at most 15 the continuation bit 0 of section 4.2.6.1 of AMQP 0-9-1 stays clear. */
  lemma FlagsAreOwn(flags: nat, a: Props, b: Props)
    requires |a| == |b| <= 16 && Announces(flags, a) && Announces(flags, b)
    ensures forall i :: 0 <= i < |a| ==> a[i].Some? == b[i].Some?
    ensures BitAt(flags, 0) <==> |a| == 16 && a[15].Some?
  {
    forall i | 0 <= i < |a| ensures a[i].Some? == b[i].Some? {
      assert BitAt(flags, FlagIndex(i)) == a[i].Some?;
      assert BitAt(flags, FlagIndex(i)) == b[i].Some?;
    }
  }

  ghost predicate AllHold(kinds: seq<Kind>, ps: Props) {
    && |kinds| == |ps| <= 16
    && forall i :: 0 <= i < |ps| ==> kinds[i] != Bit && (ps[i].Some? ==> Holds(kinds[i], ps[i].value))
  }

  predicate AllWritable(ps: Props) {
    forall i :: 0 <= i < |ps| && ps[i].Some? ==> Writable(ps[i].value)
  }

  /** The present fields, in order. */
  function Body(kinds: seq<Kind>, ps: Props): seq<Byte>
    requires |kinds| == |ps|
  {
    if ps == [] then [] else
    (if ps[0].Some? then EncField(kinds[0], ps[0].value) else []) + Body(kinds[1..], ps[1..])
  }

  /** The emitted PropertyList Read, from field i on. */
  function ReadFrom(kinds: seq<Kind>, i: nat, flags: nat, b: seq<Byte>): Read<Props>
    requires i <= |kinds| <= 16
    decreases |kinds| - i
  {
    if i == |kinds| then Ok([], b)
    else if !BitAt(flags, FlagIndex(i)) then Add(None, ReadFrom(kinds, i + 1, flags, b))
    else
      var d := DecField(kinds[i], b);
      if d.Err? then Err else Add(Some(d.value), ReadFrom(kinds, i + 1, flags, d.rest))
  }

  function Add(p: Option<Datum>, more: Read<Props>): Read<Props> {
    if more.Err? then Err else Ok([p] + more.value, more.rest)
  }

  function NormProp(p: Option<Datum>): Option<Datum> {
    if p.Some? then Some(NormDatum(p.value)) else None
  }

  function NormProps(ps: Props): (r: Props)
    ensures |r| == |ps|
  {
    if ps == [] then [] else [NormProp(ps[0])] + NormProps(ps[1..])
  }

  /** One field of the list is read back. */
  lemma PropStep(kinds: seq<Kind>, i: nat, flags: nat, p: Option<Datum>, tail: seq<Byte>)
    requires i < |kinds| <= 16 && kinds[i] != Bit
    requires p.Some? ==> Holds(kinds[i], p.value) && Writable(p.value)
    requires BitAt(flags, FlagIndex(i)) == p.Some?
    ensures ReadFrom(kinds, i, flags, (if p.Some? then EncField(kinds[i], p.value) else []) + tail)
         == Add(NormProp(p), ReadFrom(kinds, i + 1, flags, tail))
  {
    if p.Some? {
      FieldRoundTrip(kinds[i], p.value, tail);
    } else {
      assert [] + tail == tail;
    }
  }

  lemma {:induction false} ReadBackFrom(kinds: seq<Kind>, i: nat, flags: nat, ps: Props, rest: seq<Byte>)
    requires AllHold(kinds, ps) && AllWritable(ps) && Announces(flags, ps) && i <= |kinds|
    ensures ReadFrom(kinds, i, flags, Body(kinds[i..], ps[i..]) + rest) == Ok(NormProps(ps[i..]), rest)
    decreases |kinds| - i
  {
    if i == |kinds| {
      assert [] + rest == rest;
    } else {
      var p, tail := ps[i], Body(kinds[i + 1..], ps[i + 1..]) + rest;
      assert FlagIndex(i) < 16 && 15 - FlagIndex(i) == i;
      assert BitAt(flags, FlagIndex(i)) == p.Some?;
      PropStep(kinds, i, flags, p, tail);
      ReadBackFrom(kinds, i + 1, flags, ps, rest);
      BodyStep(kinds, i, ps, rest);
      assert ps[i..][0] == p && ps[i..][1..] == ps[i + 1..];
    }
  }

  lemma BodyStep(kinds: seq<Kind>, i: nat, ps: Props, rest: seq<Byte>)
    requires |kinds| == |ps| && i < |ps|
    ensures Body(kinds[i..], ps[i..]) + rest
         == (if ps[i].Some? then EncField(kinds[i], ps[i].value) else []) + (Body(kinds[i + 1..], ps[i + 1..]) + rest)
  {
    var head := if ps[i].Some? then EncField(kinds[i], ps[i].value) else [];
    var tail := Body(kinds[i + 1..], ps[i + 1..]);
    assert kinds[i..][1..] == kinds[i + 1..] && ps[i..][1..] == ps[i + 1..];
    assert Body(kinds[i..], ps[i..]) == head + tail;
    assert head + tail + rest == head + (tail + rest);
  }

  /** Every subset of the properties survives: what the flags announce is read back, absent fields stay absent,
      and nothing beyond the list is consumed. */
  lemma PropsRoundTrip(kinds: seq<Kind>, flags: nat, ps: Props, rest: seq<Byte>)
    requires AllHold(kinds, ps) && AllWritable(ps) && Announces(flags, ps)
    ensures ReadFrom(kinds, 0, flags, Body(kinds, ps) + rest) == Ok(NormProps(ps), rest)
  {
    assert kinds[0..] == kinds && ps[0..] == ps;
    ReadBackFrom(kinds, 0, flags, ps, rest);
  }

  // ---------------------------------------------------------------- the emitted code

  lemma {:induction false} BodySingle(k: Kind, p: Option<Datum>)
    ensures Body([k], [p]) == if p.Some? then EncField(k, p.value) else []
  {
    assert Body([k][1..], [p][1..]) == [];
  }

  lemma {:induction false} BodySnoc(kinds: seq<Kind>, ps: Props, k: Kind, p: Option<Datum>)
    requires |kinds| == |ps|
    ensures Body(kinds + [k], ps + [p]) == Body(kinds, ps) + if p.Some? then EncField(k, p.value) else []
  {
    var last := if p.Some? then EncField(k, p.value) else [];
    if ps == [] {
      assert kinds + [k] == [k] && ps + [p] == [p];
      BodySingle(k, p);
    } else {
      BodySnoc(kinds[1..], ps[1..], k, p);
      assert (kinds + [k])[1..] == kinds[1..] + [k] && (ps + [p])[1..] == ps[1..] + [p];
      var head := if ps[0].Some? then EncField(kinds[0], ps[0].value) else [];
      Seqs.Assoc(head, Body(kinds[1..], ps[1..]), last);
    }
  }

  lemma SixteenBits()
    ensures Pow(2, 16) == WORD16
  {
    assert Pow(2, 4) == 2 * Pow(2, 3) == 16;
    assert Pow(2, 8) == 2 * Pow(2, 7) == 4 * Pow(2, 6) == 8 * Pow(2, 5) == 16 * Pow(2, 4);
    assert Pow(2, 12) == 2 * Pow(2, 11) == 4 * Pow(2, 10) == 8 * Pow(2, 9) == 16 * Pow(2, 8);
    assert Pow(2, 16) == 2 * Pow(2, 15) == 4 * Pow(2, 14) == 8 * Pow(2, 13) == 16 * Pow(2, 12);
  }

  /** propertyFlags |= 1 << headerIndex */
  lemma AnnounceNext(flags: nat, ps: Props, p: Option<Datum>)
    requires |ps| < 16 && Announces(flags, ps)
    ensures Announces(if p.Some? then SetBit(flags, FlagIndex(|ps|)) else flags, ps + [p])
  {
    var k := FlagIndex(|ps|);
    var after := if p.Some? then SetBit(flags, k) else flags;
    SixteenBits();
    SetBitBounded(flags, k, 16);
    forall j: nat ensures BitAt(after, j) <==> j < 16 && 15 - j < |ps + [p]| && (ps + [p])[15 - j].Some? {
      SetBitSets(flags, k, j);
      assert BitAt(flags, j) <==> j < 16 && 15 - j < |ps| && ps[15 - j].Some?;
    }
  }

  lemma NothingAnnounced()
    ensures Announces(0, [])
  {
    forall j: nat ensures !BitAt(0, j) { NoBits(j); }
  }

  /** The flag word of a property list. */
  function FlagsOf(ps: Props): nat
    requires |ps| <= 16
  {
    if ps == [] then 0 else
    var init, last := ps[..|ps| - 1], ps[|ps| - 1];
    if last.Some? then SetBit(FlagsOf(init), FlagIndex(|init|)) else FlagsOf(init)
  }

  lemma {:induction false} FlagsAnnounce(ps: Props)
    requires |ps| <= 16
    ensures Announces(FlagsOf(ps), ps)
  {
    if ps == [] {
      NothingAnnounced();
    } else {
      var init, last := ps[..|ps| - 1], ps[|ps| - 1];
      FlagsAnnounce(init);
      AnnounceNext(FlagsOf(init), init, last);
      assert ps == init + [last];
    }
  }

  /** Write: the flag word grows while the present fields are appended to the buffer. */
  method WriteProps(w: IO.Buffer, kinds: seq<Kind>, ps: Props) returns (ok: bool, flags: nat)
    requires |kinds| == |ps| <= 16 && w.bytes == []
    modifies w
    ensures ok == AllWritable(ps)
    ensures ok ==> flags == FlagsOf(ps) && Announces(flags, ps) && w.bytes == Body(kinds, ps)
  {
    ok, flags := true, 0;
    for i := 0 to |kinds|
      invariant AllWritable(ps[..i]) && flags == FlagsOf(ps[..i])
      invariant w.bytes == Body(kinds[..i], ps[..i])
    {
      BodySnoc(kinds[..i], ps[..i], kinds[i], ps[i]);
      assert ps[..i + 1] == ps[..i] + [ps[i]] && kinds[..i + 1] == kinds[..i] + [kinds[i]];
      assert ps[..i + 1][..i] == ps[..i];
      if ps[i].Some? {
        flags := SetBit(flags, FlagIndex(i));
        if !Writable(ps[i].value) {
          ok := false;
          return;
        }
        w.bytes := w.bytes + EncField(kinds[i], ps[i].value);
      }
    }
    assert ps[..|ps|] == ps && kinds[..|kinds|] == kinds;
    FlagsAnnounce(ps);
  }

  /** Read: each announced field is set from the stream. */
  method ReadProps(r: IO.Reader, kinds: seq<Kind>, flags: nat) returns (ps: Option<Props>)
    requires |kinds| <= 16
    modifies r
    ensures match ReadFrom(kinds, 0, flags, old(r.left))
            case Ok(x, rest) => ps == Some(x) && r.left == rest
            case Err => ps == None
  {
    var sofar: Props := [];
    var i := 0;
    ghost var all := ReadFrom(kinds, 0, flags, r.left);
    Prepended([], all);
    while i < |kinds|
      invariant i <= |kinds|
      invariant all == Prepend(sofar, ReadFrom(kinds, i, flags, r.left))
    {
      var p: Option<Datum> := None;
      if BitAt(flags, FlagIndex(i)) {
        var d := DecField(kinds[i], r.left);
        if d.Err? { return None; }
        PrependAdd(sofar, Some(d.value), ReadFrom(kinds, i + 1, flags, d.rest));
        p := Some(d.value);
        r.left := d.rest;
      } else {
        PrependAdd(sofar, None, ReadFrom(kinds, i + 1, flags, r.left));
      }
      sofar := sofar + [p];
      i := i + 1;
    }
    assert sofar + [] == sofar;
    ps := Some(sofar);
  }

  ghost function Prepend(ps: Props, more: Read<Props>): Read<Props> {
    if more.Err? then Err else Ok(ps + more.value, more.rest)
  }

  lemma Prepended(ps: Props, more: Read<Props>)
    requires ps == []
    ensures Prepend(ps, more) == more
  {
    if more.Ok? { assert ps + more.value == more.value; }
  }

  lemma PrependAdd(ps: Props, p: Option<Datum>, more: Read<Props>)
    ensures Prepend(ps, Add(p, more)) == Prepend(ps + [p], more)
  {
    if more.Ok? { assert ps + ([p] + more.value) == ps + [p] + more.value; }
  }
}
