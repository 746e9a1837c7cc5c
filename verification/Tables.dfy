/**
 Field tables in the Rabbit dialect: readValueRabbit, writeValueRabbit, readArray,
 writeArray, ReadTable and WriteTable of amqp/readers_writers.go. A table is the list
 of its entries in the order the Go map is iterated; every such order is covered.
 */
module Tables {
  import opened Bytes
  import opened Options
  import opened Words

  /** The Go values a table can hold. Floats are their bit patterns. TablePtr is what reading a nested table
      gives, and Unsupported stands for every other Go type; the writer accepts neither. */
  datatype Value =
    | Bool(b: bool)
    | Int8(i8: I8) | Uint8(u8: Byte)
    | Int16(i16: I16) | Uint16(u16: U16)
    | Int32(i32: I32) | Uint32(u32: U32)
    | Int64(i64: I64) | Uint64(u64: U64)
    | Float32(f32: U32) | Float64(f64: U64)
    | Decimal(scale: Byte, i32: I32)
    | ByteSlice(s: seq<Byte>) | Str(s: seq<Byte>)
    | Time(seconds: I64)
    | Array(items: seq<Value>)
    | Table(entries: seq<Entry>)
    | TablePtr(entries: seq<Entry>)
    | Nil
    | Unsupported

  datatype Entry = Entry(key: seq<Byte>, value: Value)

  /** Strings and nested encodings fit a 32-bit length and keys fit an octet; keys of a table are distinct
      because it is a Go map. */
  ghost predicate Fits(v: Value) {
    match v
    case ByteSlice(s) => |s| < WORD32
    case Str(s) => |s| < WORD32
    case Array(items) => AllFit(items) && |EncItems(items)| < WORD32
    case Table(es) => EntriesFit(es)
    case TablePtr(es) => EntriesFit(es)
    case _ => true
  }

  ghost predicate AllFit(vs: seq<Value>) {
    forall i :: 0 <= i < |vs| ==> Fits(vs[i])
  }

  ghost predicate EntriesFit(es: seq<Entry>) {
    && (forall i :: 0 <= i < |es| ==> |es[i].key| < WORD8 && Fits(es[i].value))
    && Distinct(Keys(es))
    && |EncEntries(es)| < WORD32
  }

  function Keys(es: seq<Entry>): seq<seq<Byte>> {
    seq(|es|, i requires 0 <= i < |es| => es[i].key)
  }

  ghost predicate Distinct(ks: seq<seq<Byte>>) {
    forall i, j :: 0 <= i < j < |ks| ==> ks[i] != ks[j]
  }

  /** Does the writer accept the value, with everything inside it? */
  predicate Writable(v: Value) {
    match v
    case Array(items) => forall i :: 0 <= i < |items| ==> Writable(items[i])
    case Table(es) => forall i :: 0 <= i < |es| ==> Writable(es[i].value)
    case TablePtr(_) => false
    case Unsupported => false
    case _ => true
  }

  // ---------------------------------------------------------------- writing

  /** Values that are written as one number of fixed width after their type octet. */
  predicate Simple(v: Value) {
    !(v.Decimal? || v.ByteSlice? || v.Str? || v.Array? || v.Table? || v.TablePtr? || v.Nil? || v.Unsupported?)
  }

  function Tag(v: Value): Byte
    requires Simple(v)
  {
    match v
    case Bool(_) => 't' as int
    case Int8(_) => 'b' as int
    case Uint8(_) => 'b' as int
    case Int16(_) => 's' as int
    case Uint16(_) => 's' as int
    case Int32(_) => 'I' as int
    case Uint32(_) => 'I' as int
    case Int64(_) => 'l' as int
    case Uint64(_) => 'l' as int
    case Float32(_) => 'f' as int
    case Float64(_) => 'd' as int
    case Time(_) => 'T' as int
  }

  /** Bytes of the number that follows a type octet; 0 for all other octets. */
  function Width(t: Byte): nat {
    if t == 't' as int || t == 'b' as int then 1
    else if t == 's' as int then 2
    else if t == 'I' as int || t == 'f' as int then 4
    else if t == 'l' as int || t == 'd' as int || t == 'T' as int then 8
    else 0
  }

  function Number(v: Value): nat
    requires Simple(v)
  {
    match v
    case Bool(b) => if b then 1 else 0
    case Int8(i) => ToBits(i, WORD8)
    case Uint8(u) => u
    case Int16(i) => ToBits(i, WORD16)
    case Uint16(u) => u
    case Int32(i) => ToBits(i, WORD32)
    case Uint32(u) => u
    case Int64(i) => ToBits(i, WORD64)
    case Uint64(u) => u
    case Float32(u) => u
    case Float64(u) => u
    case Time(i) => ToBits(i, WORD64)
  }

  /** The bytes of an accepted value. */
  function Enc(v: Value): seq<Byte>
    decreases v, 1
  {
    if Simple(v) then [Tag(v)] + Be(Number(v), Width(Tag(v))) else
    match v
    case Decimal(scale, i) => ['D' as int] + (Be(scale, 1) + Be(ToBits(i, WORD32), 4))
    case ByteSlice(s) => ['S' as int] + WriteLongstr(s)
    case Str(s) => ['S' as int] + WriteLongstr(s)
    case Array(items) => ['x' as int] + WriteLongstr(EncItems(items))
    case Table(es) => ['F' as int] + WriteLongstr(EncEntries(es))
    case Nil => ['V' as int]
    case _ => []
  }

  function EncItems(vs: seq<Value>): seq<Byte>
    decreases vs, 0
  {
    if vs == [] then [] else Enc(vs[0]) + EncItems(vs[1..])
  }

  function EncEntries(es: seq<Entry>): seq<Byte>
    decreases es, 0
  {
    if es == [] then [] else WriteShortstr(es[0].key) + Enc(es[0].value) + EncEntries(es[1..])
  }

  /** writeValueRabbit: an unsupported type anywhere is an error. */
  function WriteValue(v: Value): Option<seq<Byte>> {
    if Writable(v) then Some(Enc(v)) else None
  }

  function WriteTable(es: seq<Entry>): Option<seq<Byte>> {
    if Writable(Table(es)) then Some(WriteLongstr(EncEntries(es))) else None
  }

  // ---------------------------------------------------------------- reading

  /** Storing into the Go map under construction. */
  function Put(es: seq<Entry>, k: seq<Byte>, v: Value): seq<Entry> {
    if es == [] then [Entry(k, v)]
    else if es[0].key == k then [Entry(k, v)] + es[1..]
    else [es[0]] + Put(es[1..], k, v)
  }

  /** The value of a number after a type octet. */
  function FromNumber(t: Byte, u: nat): Value
    requires Width(t) > 0 && u < Pow(256, Width(t))
  {
    Powers();
    if t == 't' as int then Bool(u != 0)
    else if t == 'b' as int then Int8(ToSigned(u, WORD8))
    else if t == 's' as int then Int16(ToSigned(u, WORD16))
    else if t == 'I' as int then Int32(ToSigned(u, WORD32))
    else if t == 'l' as int then Int64(ToSigned(u, WORD64))
    else if t == 'f' as int then Float32(u)
    else if t == 'd' as int then Float64(u)
    else Time(ToSigned(u, WORD64))
  }

  function DecDecimal(b: seq<Byte>): (r: Read<Value>)
    ensures r.Ok? ==> |r.rest| <= |b|
  {
    Powers();
    var scale := ReadUint(b, 1);
    if scale.Err? then Err else
    var i := ReadUint(scale.rest, 4);
    if i.Err? then Err else Ok(Decimal(scale.value, ToSigned(i.value, WORD32)), i.rest)
  }

  /** readValueRabbit. Nested reads work on a shorter buffer, so this terminates on every input. */
  function Dec(b: seq<Byte>): (r: Read<Value>)
    ensures r.Ok? ==> |r.rest| < |b|
    decreases |b|, 1
  {
    if b == [] then Err else
    var t, b := b[0], b[1..];
    if Width(t) > 0 then
      var u := ReadUint(b, Width(t));
      if u.Err? then Err else Ok(FromNumber(t, u.value), u.rest)
    else if t == 'D' as int then DecDecimal(b)
    else if t == 'V' as int then Ok(Nil, b)
    else if t != 'S' as int && t != 'x' as int && t != 'F' as int then Err
    else
      var s := ReadLongstr(b);
      if s.Err? then Err else
      var v := DecBody(t, s.value);
      if v.None? then Err else Ok(v.value, s.rest)
  }

  /** The values that are carried in a long string. */
  function DecBody(t: Byte, data: seq<Byte>): Option<Value>
    decreases |data|, 3
  {
    if t == 'S' as int then Some(Str(data))
    else if t == 'x' as int then
      var items := DecItems(data);
      if items.None? then None else Some(Array(items.value))
    else
      var es := DecEntries(data, []);
      if es.None? then None else Some(TablePtr(es.value))
  }

  /** The loop of readArray, to the end of its buffer. */
  function DecItems(b: seq<Byte>): Option<seq<Value>>
    decreases |b|, 2
  {
    if b == [] then Some([]) else
    var v := Dec(b);
    if v.Err? then None else
    var vs := DecItems(v.rest);
    if vs.None? then None else Some([v.value] + vs.value)
  }

  /** The loop of ReadTable, to the end of its buffer. */
  function DecEntries(b: seq<Byte>, soFar: seq<Entry>): Option<seq<Entry>>
    decreases |b|, 2
  {
    if b == [] then Some(soFar) else
    var k := ReadShortstr(b);
    if k.Err? then None else
    var v := Dec(k.rest);
    if v.Err? then None else DecEntries(v.rest, Put(soFar, k.value, v.value))
  }

  function ReadTable(b: seq<Byte>): Read<seq<Entry>> {
    var s := ReadLongstr(b);
    if s.Err? then Err else
    var es := DecEntries(s.value, []);
    if es.None? then Err else Ok(es.value, s.rest)
  }

  // ---------------------------------------------------------------- round trip

  /** What a value looks like after a trip through bytes: unsigned integers come back as signed ones of the
      same bits, byte slices as strings, and nested tables as pointers to tables. */
  function Norm(v: Value): Value
    decreases v, 1
  {
    match v
    case Uint8(u) => Int8(ToSigned(u, WORD8))
    case Uint16(u) => Int16(ToSigned(u, WORD16))
    case Uint32(u) => Int32(ToSigned(u, WORD32))
    case Uint64(u) => Int64(ToSigned(u, WORD64))
    case ByteSlice(s) => Str(s)
    case Array(items) => Array(NormItems(items))
    case Table(es) => TablePtr(NormEntries(es))
    case _ => v
  }

  function NormItems(vs: seq<Value>): seq<Value>
    decreases vs, 0
  {
    if vs == [] then [] else [Norm(vs[0])] + NormItems(vs[1..])
  }

  function NormEntries(es: seq<Entry>): (r: seq<Entry>)
    ensures |r| == |es|
    ensures forall i :: 0 <= i < |es| ==> r[i].key == es[i].key
    decreases es, 0
  {
    if es == [] then [] else [Entry(es[0].key, Norm(es[0].value))] + NormEntries(es[1..])
  }

  lemma NumberRoundTrip(v: Value)
    requires Simple(v)
    ensures Width(Tag(v)) > 0 && Number(v) < Pow(256, Width(Tag(v))) && FromNumber(Tag(v), Number(v)) == Norm(v)
  {
    Powers();
  }

  lemma SimpleRoundTrip(v: Value, rest: seq<Byte>)
    requires Simple(v)
    ensures Dec(Enc(v) + rest) == Ok(Norm(v), rest)
  {
    NumberRoundTrip(v);
    var n, b := Width(Tag(v)), Enc(v) + rest;
    assert b[0] == Tag(v) && b[1..] == Be(Number(v), n) + rest;
    ReadUintOfBe(Number(v), n, rest);
  }

  lemma DecimalRoundTrip(v: Value, rest: seq<Byte>)
    requires v.Decimal?
    ensures Dec(Enc(v) + rest) == Ok(Norm(v), rest)
  {
    Powers();
    var tail := Be(ToBits(v.i32, WORD32), 4) + rest;
    ReadUintOfBe(v.scale, 1, tail);
    ReadUintOfBe(ToBits(v.i32, WORD32), 4, rest);
    assert (Enc(v) + rest)[1..] == Be(v.scale, 1) + tail;
  }

  /** A type octet followed by a long string. */
  lemma LongRoundTrip(t: Byte, s: seq<Byte>, rest: seq<Byte>)
    requires |s| < WORD32 && (t == 'S' as int || t == 'x' as int || t == 'F' as int) && DecBody(t, s).Some?
    ensures Dec([t] + WriteLongstr(s) + rest) == Ok(DecBody(t, s).value, rest)
  {
    var b := [t] + WriteLongstr(s) + rest;
    assert b[0] == t && b[1..] == WriteLongstr(s) + rest;
    LongstrRoundTrip(s, rest);
  }

  lemma StringRoundTrip(v: Value, rest: seq<Byte>)
    requires (v.Str? || v.ByteSlice?) && |v.s| < WORD32
    ensures Dec(Enc(v) + rest) == Ok(Norm(v), rest)
  {
    LongRoundTrip('S' as int, v.s, rest);
  }

  lemma ArrayRoundTrip(items: seq<Value>, rest: seq<Byte>)
    requires |EncItems(items)| < WORD32 && DecItems(EncItems(items)) == Some(NormItems(items))
    ensures Dec(Enc(Array(items)) + rest) == Ok(Norm(Array(items)), rest)
  {
    assert Enc(Array(items)) == ['x' as int] + WriteLongstr(EncItems(items));
    assert DecBody('x' as int, EncItems(items)) == Some(Array(NormItems(items)));
    LongRoundTrip('x' as int, EncItems(items), rest);
  }

  lemma NestedRoundTrip(es: seq<Entry>, rest: seq<Byte>)
    requires |EncEntries(es)| < WORD32 && DecEntries(EncEntries(es), []) == Some(NormEntries(es))
    ensures Dec(Enc(Table(es)) + rest) == Ok(Norm(Table(es)), rest)
  {
    assert Enc(Table(es)) == ['F' as int] + WriteLongstr(EncEntries(es));
    assert DecBody('F' as int, EncEntries(es)) == Some(TablePtr(NormEntries(es)));
    LongRoundTrip('F' as int, EncEntries(es), rest);
  }

  lemma NilRoundTrip(rest: seq<Byte>)
    ensures Dec(Enc(Nil) + rest) == Ok(Nil, rest)
  {
    assert (Enc(Nil) + rest)[1..] == rest;
  }

  /** Reading undoes writing for every accepted value, up to Norm, and leaves what follows untouched. */
  lemma {:induction false} ValueRoundTrip(v: Value, rest: seq<Byte>)
    requires Writable(v) && Fits(v)
    ensures Dec(Enc(v) + rest) == Ok(Norm(v), rest)
    decreases v, 1
  {
    if Simple(v) {
      SimpleRoundTrip(v, rest);
    } else {
      match v
      case Decimal(_, _) => DecimalRoundTrip(v, rest);
      case ByteSlice(s) => StringRoundTrip(v, rest);
      case Str(s) => StringRoundTrip(v, rest);
      case Array(items) =>
        ItemsRoundTrip(items);
        ArrayRoundTrip(items, rest);
      case Table(es) =>
        EntriesFromStart(es);
        NestedRoundTrip(es, rest);
      case Nil => NilRoundTrip(rest);
    }
  }

  lemma EncNonEmpty(v: Value)
    requires Writable(v)
    ensures Enc(v) != []
  {
  }

  lemma {:induction false} ItemsRoundTrip(vs: seq<Value>)
    requires AllFit(vs) && forall i :: 0 <= i < |vs| ==> Writable(vs[i])
    ensures DecItems(EncItems(vs)) == Some(NormItems(vs))
    decreases vs, 0
  {
    if vs != [] {
      EncNonEmpty(vs[0]);
      ValueRoundTrip(vs[0], EncItems(vs[1..]));
      ItemsRoundTrip(vs[1..]);
    }
  }

  lemma {:induction false} PutNew(es: seq<Entry>, k: seq<Byte>, v: Value)
    requires forall i :: 0 <= i < |es| ==> es[i].key != k
    ensures Put(es, k, v) == es + [Entry(k, v)]
  {
    if es != [] { PutNew(es[1..], k, v); }
  }

  function NormEntry(e: Entry): Entry {
    Entry(e.key, Norm(e.value))
  }

  /** One turn of the reading loop over written entries. */
  lemma EntryStep(e: Entry, rest: seq<Entry>, soFar: seq<Entry>)
    requires |e.key| < WORD8 && Dec(Enc(e.value) + EncEntries(rest)) == Ok(Norm(e.value), EncEntries(rest))
    requires forall i :: 0 <= i < |soFar| ==> soFar[i].key != e.key
    ensures DecEntries(EncEntries([e] + rest), soFar) == DecEntries(EncEntries(rest), soFar + [NormEntry(e)])
  {
    var tail := Enc(e.value) + EncEntries(rest);
    assert ([e] + rest)[1..] == rest;
    assert EncEntries([e] + rest) == WriteShortstr(e.key) + tail;
    ShortstrRoundTripIff(e.key, tail);
    PutNew(soFar, e.key, Norm(e.value));
  }

  lemma NormStep(e: Entry, rest: seq<Entry>, soFar: seq<Entry>)
    ensures soFar + [NormEntry(e)] + NormEntries(rest) == soFar + NormEntries([e] + rest)
  {
    assert ([e] + rest)[1..] == rest;
  }

  ghost predicate AllGood(es: seq<Entry>) {
    forall i :: 0 <= i < |es| ==> |es[i].key| < WORD8 && Fits(es[i].value) && Writable(es[i].value)
  }

  lemma KeysStep(soFar: seq<Entry>, es: seq<Entry>, v: Value)
    requires es != [] && Distinct(Keys(soFar) + Keys(es))
    ensures Distinct(Keys(soFar + [Entry(es[0].key, v)]) + Keys(es[1..]))
    ensures forall i :: 0 <= i < |soFar| ==> soFar[i].key != es[0].key
  {
    var all := Keys(soFar) + Keys(es);
    assert Keys(soFar + [Entry(es[0].key, v)]) + Keys(es[1..]) == all;
    assert all[|soFar|] == es[0].key;
    assert forall i :: 0 <= i < |soFar| ==> all[i] == soFar[i].key;
  }

  lemma {:induction false} EntriesRoundTrip(es: seq<Entry>, soFar: seq<Entry>)
    requires AllGood(es) && Distinct(Keys(soFar) + Keys(es))
    ensures DecEntries(EncEntries(es), soFar) == Some(soFar + NormEntries(es))
    decreases es, 0
  {
    if es == [] {
      assert soFar + [] == soFar;
    } else {
      var e, rest := es[0], es[1..];
      KeysStep(soFar, es, Norm(e.value));
      ValueRoundTrip(e.value, EncEntries(rest));
      EntryStep(e, rest, soFar);
      EntriesRoundTrip(rest, soFar + [NormEntry(e)]);
      NormStep(e, rest, soFar);
      assert es == [e] + rest;
    }
  }

  lemma GoodFromStart(es: seq<Entry>)
    requires EntriesFit(es) && forall i :: 0 <= i < |es| ==> Writable(es[i].value)
    ensures AllGood(es) && Distinct(Keys([]) + Keys(es))
  {
    assert Keys([]) + Keys(es) == Keys(es);
  }

  lemma EntriesFromStart(es: seq<Entry>)
    requires EntriesFit(es) && forall i :: 0 <= i < |es| ==> Writable(es[i].value)
    ensures DecEntries(EncEntries(es), []) == Some(NormEntries(es))
    decreases es, 1
  {
    GoodFromStart(es);
    EntriesRoundTrip(es, []);
    assert [] + NormEntries(es) == NormEntries(es);
  }

  /** A table written in any iteration order reads back as the same entries, normalised, and the bytes after
      it are left alone. */
  lemma TableRoundTrip(es: seq<Entry>, rest: seq<Byte>)
    requires EntriesFit(es) && Writable(Table(es))
    ensures WriteTable(es).Some? && ReadTable(WriteTable(es).value + rest) == Ok(NormEntries(es), rest)
  {
    LongstrRoundTrip(EncEntries(es), rest);
    EntriesFromStart(es);
  }

  /** Every iteration order of one Go map gives the same map back: the entries read are the normalised ones. */
  lemma {:induction false} NormMembers(es: seq<Entry>, x: Entry)
    ensures x in NormEntries(es) <==> exists i :: 0 <= i < |es| && x == NormEntry(es[i])
  {
    if es != [] {
      NormMembers(es[1..], x);
      if i :| 0 <= i < |es| && x == NormEntry(es[i]) {
        if i > 0 { assert es[i] == es[1..][i - 1]; }
      }
      if i :| 0 <= i < |es[1..]| && x == NormEntry(es[1..][i]) { assert es[1..][i] == es[i + 1]; }
      assert x == NormEntry(es[0]) ==> x == NormEntries(es)[0];
    }
  }

  /** Two iteration orders of one table read back as the same set of entries. */
  lemma OrderIrrelevant(a: seq<Entry>, b: seq<Entry>, rest: seq<Byte>)
    requires EntriesFit(a) && EntriesFit(b) && Writable(Table(a)) && Writable(Table(b))
    requires forall e :: e in a <==> e in b
    ensures var ra, rb := ReadTable(WriteTable(a).value + rest), ReadTable(WriteTable(b).value + rest);
            ra.Ok? && rb.Ok? && forall x :: x in ra.value <==> x in rb.value
  {
    TableRoundTrip(a, rest);
    TableRoundTrip(b, rest);
    forall x ensures x in NormEntries(a) <==> x in NormEntries(b) {
      NormMembers(a, x);
      NormMembers(b, x);
      if i :| 0 <= i < |a| && x == NormEntry(a[i]) {
        assert a[i] in b;
        var j :| 0 <= j < |b| && b[j] == a[i];
        assert x == NormEntry(b[j]);
      }
      if i :| 0 <= i < |b| && x == NormEntry(b[i]) {
        assert b[i] in a;
        var j :| 0 <= j < |a| && a[j] == b[i];
        assert x == NormEntry(a[j]);
      }
    }
  }

  /** Is there a table somewhere inside the value? */
  predicate HasTable(v: Value) {
    match v
    case Array(items) => exists i :: 0 <= i < |items| && HasTable(items[i])
    case Table(_) => true
    case _ => false
  }

  /** What was read can be written again exactly when it held no nested table: a message whose headers nest a
      table cannot be stored a second time. */
  lemma {:induction false} RewritableIff(v: Value)
    requires Writable(v)
    ensures Writable(Norm(v)) <==> !HasTable(v)
    decreases v, 1
  {
    if v.Array? { ItemsRewritable(v.items); }
  }

  lemma {:induction false} ItemsRewritable(vs: seq<Value>)
    requires forall i :: 0 <= i < |vs| ==> Writable(vs[i])
    ensures |NormItems(vs)| == |vs|
    ensures forall i :: 0 <= i < |vs| ==> (Writable(NormItems(vs)[i]) <==> !HasTable(vs[i]))
    decreases vs, 0
  {
    if vs != [] {
      RewritableIff(vs[0]);
      ItemsRewritable(vs[1..]);
      forall i | 0 <= i < |vs| ensures Writable(NormItems(vs)[i]) <==> !HasTable(vs[i]) {
        if i > 0 { assert vs[i] == vs[1..][i - 1] && NormItems(vs)[i] == NormItems(vs[1..])[i - 1]; }
      }
    }
  }

  predicate EntriesWritable(es: seq<Entry>) {
    forall i :: 0 <= i < |es| ==> Writable(es[i].value)
  }

  lemma {:induction false} TableWritable(es: seq<Entry>)
    ensures Writable(Table(es)) <==> EntriesWritable(es)
  {
  }

  lemma EntryRewritable(es: seq<Entry>, i: nat)
    requires i < |es| && Writable(es[i].value)
    ensures Writable(NormEntries(es)[i].value) <==> !HasTable(es[i].value)
  {
    NormAt(es, i);
    RewritableIff(es[i].value);
  }

  lemma TableRewritableIff(es: seq<Entry>)
    requires Writable(Table(es))
    ensures WriteTable(NormEntries(es)).Some? <==> forall i :: 0 <= i < |es| ==> !HasTable(es[i].value)
  {
    var ns := NormEntries(es);
    TableWritable(es);
    TableWritable(ns);
    forall i | 0 <= i < |es| ensures Writable(ns[i].value) <==> !HasTable(es[i].value) {
      EntryRewritable(es, i);
    }
    if EntriesWritable(ns) {
      forall i | 0 <= i < |es| ensures !HasTable(es[i].value) { assert Writable(ns[i].value); }
    }
  }

  lemma {:induction false} NormAt(es: seq<Entry>, i: nat)
    requires i < |es|
    ensures NormEntries(es)[i] == NormEntry(es[i])
  {
    if i > 0 { NormAt(es[1..], i - 1); }
  }

  /** A table that holds an empty table is written and read, and what was read cannot be written. */
  lemma NestedTableStuck(key: seq<Byte>)
    requires |key| < WORD8
    ensures var es := [Entry(key, Table([]))];
            && WriteTable(es).Some? && ReadTable(WriteTable(es).value).Ok?
            && WriteTable(ReadTable(WriteTable(es).value).value).None?
  {
    var es := [Entry(key, Table([]))];
    NestedFits(key);
    TableRoundTrip(es, []);
    assert WriteTable(es).value + [] == WriteTable(es).value;
    assert HasTable(es[0].value);
    TableRewritableIff(es);
  }

  lemma NestedFits(key: seq<Byte>)
    requires |key| < WORD8
    ensures EntriesFit([Entry(key, Table([]))]) && Writable(Table([Entry(key, Table([]))]))
  {
    var es := [Entry(key, Table([]))];
    assert es[1..] == [] && |Enc(Table([]))| == 5;
    assert |EncEntries(es)| == 1 + |key| + 5;
    assert EntriesFit([]) && Fits(Table([])) && Writable(Table([]));
  }
}
