/**
 The loops of amqp/readers_writers.go over byte buffers that are consumed and filled
 in place, proved against the functions of module Tables.
 */
module TableIO {
  import opened Bytes
  import opened Options
  import opened Tables
  import opened Words

  /** bytes.Reader: what is left to read. */
  class Reader {
    var left: seq<Byte>

    constructor (data: seq<Byte>)
      ensures left == data
    {
      left := data;
    }
  }

  /** bytes.Buffer: what has been written. */
  class Buffer {
    var bytes: seq<Byte>

    constructor ()
      ensures bytes == []
    {
      bytes := [];
    }
  }

  method ReadLong(r: Reader) returns (s: Option<seq<Byte>>)
    modifies r
    ensures match ReadLongstr(old(r.left))
            case Ok(x, rest) => s == Some(x) && r.left == rest
            case Err => s == None && r.left == old(r.left)
  {
    var res := ReadLongstr(r.left);
    if res.Err? { return None; }
    s := Some(res.value);
    r.left := res.rest;
  }

  /** readValueRabbit */
  method ReadValue(r: Reader) returns (v: Option<Value>)
    modifies r
    ensures match Dec(old(r.left))
            case Ok(x, rest) => v == Some(x) && r.left == rest
            case Err => v == None
    decreases |r.left|, 1
  {
    if r.left == [] { return None; }
    var t := r.left[0];
    assert r.left == [t] + r.left[1..];
    r.left := r.left[1..];
    if t != 'S' as int && t != 'x' as int && t != 'F' as int {
      v := ReadPlain(r, t);
      return;
    }
    var s := ReadLong(r);
    if s == None { return None; }
    v := ReadBody(t, s.value);
  }

  /** binary.Read of an unsigned number of n bytes. */
  method ReadNumber(r: Reader, n: nat) returns (u: Option<nat>)
    modifies r
    ensures match ReadUint(old(r.left), n)
            case Ok(x, rest) => u == Some(x) && r.left == rest && x < Pow(256, n)
            case Err => u == None
  {
    var res := ReadUint(r.left, n);
    if res.Err? { return None; }
    u := Some(res.value);
    r.left := res.rest;
  }

  /** The values that are not carried in a long string, after their type octet. */
  method ReadPlain(r: Reader, t: Byte) returns (v: Option<Value>)
    requires t != 'S' as int && t != 'x' as int && t != 'F' as int
    modifies r
    ensures match Dec([t] + old(r.left))
            case Ok(x, rest) => v == Some(x) && r.left == rest
            case Err => v == None
  {
    assert ([t] + r.left)[1..] == r.left;
    if t == 'V' as int { return Some(Nil); }
    if t == 'D' as int {
      v := ReadDecimal(r);
      return;
    }
    v := ReadFixed(r, t);
  }

  method ReadDecimal(r: Reader) returns (v: Option<Value>)
    modifies r
    ensures match DecDecimal(old(r.left))
            case Ok(x, rest) => v == Some(x) && r.left == rest
            case Err => v == None
  {
    Powers();
    var scale := ReadNumber(r, 1);
    if scale == None { return None; }
    var i := ReadNumber(r, 4);
    if i == None { return None; }
    v := Some(Decimal(scale.value, ToSigned(i.value, WORD32)));
  }

  /** A number of fixed width; an unknown type octet is an error. */
  method ReadFixed(r: Reader, t: Byte) returns (v: Option<Value>)
    modifies r
    ensures Width(t) == 0 ==> v == None
    ensures Width(t) > 0 ==> match ReadUint(old(r.left), Width(t))
                             case Ok(u, rest) => v == Some(FromNumber(t, u)) && r.left == rest
                             case Err => v == None
  {
    Powers();
    v := None;
    var u: Option<nat>;
    if t == 't' as int {
      u := ReadNumber(r, 1);
      if u.Some? { v := Some(Bool(u.value != 0)); }
    } else if t == 'b' as int {
      u := ReadNumber(r, 1);
      if u.Some? { v := Some(Int8(ToSigned(u.value, WORD8))); }
    } else if t == 's' as int {
      u := ReadNumber(r, 2);
      if u.Some? { v := Some(Int16(ToSigned(u.value, WORD16))); }
    } else if t == 'I' as int {
      u := ReadNumber(r, 4);
      if u.Some? { v := Some(Int32(ToSigned(u.value, WORD32))); }
    } else if t == 'l' as int {
      u := ReadNumber(r, 8);
      if u.Some? { v := Some(Int64(ToSigned(u.value, WORD64))); }
    } else if t == 'f' as int {
      u := ReadNumber(r, 4);
      if u.Some? { v := Some(Float32(u.value)); }
    } else if t == 'd' as int {
      u := ReadNumber(r, 8);
      if u.Some? { v := Some(Float64(u.value)); }
    } else if t == 'T' as int {
      u := ReadNumber(r, 8);
      if u.Some? { v := Some(Time(ToSigned(u.value, WORD64))); }
    }
  }

  /** The values carried in a long string. */
  method ReadBody(t: Byte, data: seq<Byte>) returns (v: Option<Value>)
    ensures v == DecBody(t, data)
    decreases |data|, 3
  {
    if t == 'S' as int {
      v := Some(Str(data));
    } else if t == 'x' as int {
      var items := ReadItems(data);
      v := if items == None then None else Some(Array(items.value));
    } else {
      var es := ReadEntries(data);
      v := if es == None then None else Some(TablePtr(es.value));
    }
  }

  /** readArray, after its length: values until the buffer is empty. */
  method ReadItems(data: seq<Byte>) returns (vs: Option<seq<Value>>)
    ensures vs == DecItems(data)
    decreases |data|, 2
  {
    var reader := new Reader(data);
    var items: seq<Value> := [];
    assert DecItems(data).Some? ==> [] + DecItems(data).value == DecItems(data).value;
    while |reader.left| > 0
      invariant |reader.left| <= |data|
      invariant DecItems(data) == Prepend(items, DecItems(reader.left))
      decreases |reader.left|
    {
      var v := ReadValue(reader);
      if v == None { return None; }
      items := items + [v.value];
      PrependTwice(items[..|items| - 1], v.value, DecItems(reader.left));
    }
    assert items + [] == items;
    vs := Some(items);
  }

  ghost function Prepend(items: seq<Value>, vs: Option<seq<Value>>): Option<seq<Value>> {
    if vs == None then None else Some(items + vs.value)
  }

  lemma PrependTwice(items: seq<Value>, v: Value, vs: Option<seq<Value>>)
    ensures Prepend(items, if vs == None then None else Some([v] + vs.value)) == Prepend(items + [v], vs)
  {
    if vs.Some? { assert items + ([v] + vs.value) == items + [v] + vs.value; }
  }

  /** ReadTable, after its length: keys and values until the buffer is empty. */
  method ReadEntries(data: seq<Byte>) returns (es: Option<seq<Entry>>)
    ensures es == DecEntries(data, [])
    decreases |data|, 2
  {
    var reader := new Reader(data);
    var table: seq<Entry> := [];
    while |reader.left| > 0
      invariant |reader.left| <= |data|
      invariant DecEntries(data, []) == DecEntries(reader.left, table)
      decreases |reader.left|
    {
      var key := ReadShortstr(reader.left);
      if key.Err? { return None; }
      reader.left := key.rest;
      var v := ReadValue(reader);
      if v == None { return None; }
      table := Put(table, key.value, v.value);
    }
    es := Some(table);
  }

  /** writeValueRabbit; after an error the buffer is abandoned. */
  method WriteValue(w: Buffer, v: Value) returns (ok: bool)
    modifies w
    ensures ok == Writable(v)
    ensures ok ==> w.bytes == old(w.bytes) + Enc(v)
    decreases v, 1
  {
    match v
    case Array(items) =>
      var inner := new Buffer();
      ok := WriteItems(inner, items);
      if ok { WriteTagged(w, 'x' as int, WriteLongstr(inner.bytes)); }
    case Table(es) =>
      var inner := new Buffer();
      ok := WriteEntries(inner, es);
      if ok { WriteTagged(w, 'F' as int, WriteLongstr(inner.bytes)); }
    case TablePtr(_) => ok := false;
    case Unsupported => ok := false;
    case _ =>
      ok := true;
      WritePlain(w, v);
  }

  /** A type octet and what follows it. */
  method WriteTagged(w: Buffer, t: Byte, data: seq<Byte>)
    modifies w
    ensures w.bytes == old(w.bytes) + ([t] + data)
  {
    w.bytes := w.bytes + [t];
    w.bytes := w.bytes + data;
  }

  /** The values that hold no others. */
  method WritePlain(w: Buffer, v: Value)
    requires !v.Array? && !v.Table? && !v.TablePtr? && !v.Unsupported?
    modifies w
    ensures w.bytes == old(w.bytes) + Enc(v)
  {
    match v
    case Bool(b) => WriteTagged(w, 't' as int, Be(if b then 1 else 0, 1));
    case Int8(i) => WriteTagged(w, 'b' as int, Be(ToBits(i, WORD8), 1));
    case Uint8(u) => WriteTagged(w, 'b' as int, Be(u, 1));
    case Int16(i) => WriteTagged(w, 's' as int, Be(ToBits(i, WORD16), 2));
    case Uint16(u) => WriteTagged(w, 's' as int, Be(u, 2));
    case Int32(i) => WriteTagged(w, 'I' as int, Be(ToBits(i, WORD32), 4));
    case Uint32(u) => WriteTagged(w, 'I' as int, Be(u, 4));
    case Int64(i) => WriteTagged(w, 'l' as int, Be(ToBits(i, WORD64), 8));
    case Uint64(u) => WriteTagged(w, 'l' as int, Be(u, 8));
    case Float32(u) => WriteTagged(w, 'f' as int, Be(u, 4));
    case Float64(u) => WriteTagged(w, 'd' as int, Be(u, 8));
    case Decimal(scale, i) => WriteTagged(w, 'D' as int, Be(scale, 1) + Be(ToBits(i, WORD32), 4));
    case ByteSlice(s) => WriteTagged(w, 'S' as int, WriteLongstr(s));
    case Str(s) => WriteTagged(w, 'S' as int, WriteLongstr(s));
    case Time(i) => WriteTagged(w, 'T' as int, Be(ToBits(i, WORD64), 8));
    case Nil => WriteTagged(w, 'V' as int, []);
  }

  /** The loop of writeArray. */
  method WriteItems(w: Buffer, items: seq<Value>) returns (ok: bool)
    requires w.bytes == []
    modifies w
    ensures ok == forall i :: 0 <= i < |items| ==> Writable(items[i])
    ensures ok ==> w.bytes == EncItems(items)
    decreases items, 0
  {
    ok := true;
    for i := 0 to |items|
      invariant forall j :: 0 <= j < i ==> Writable(items[j])
      invariant w.bytes == EncItems(items[..i])
    {
      ok := WriteValue(w, items[i]);
      if !ok { return; }
      assert items[..i + 1] == items[..i] + [items[i]];
      ItemsSnoc(items[..i], items[i]);
    }
    assert items[..|items|] == items;
  }

  lemma {:induction false} ItemsSnoc(vs: seq<Value>, v: Value)
    ensures EncItems(vs + [v]) == EncItems(vs) + Enc(v)
  {
    if vs == [] {
      assert [] + [v] == [v] && [v][1..] == [];
      assert EncItems([v]) == Enc(v) + [];
    } else {
      ItemsSnoc(vs[1..], v);
      assert (vs + [v])[1..] == vs[1..] + [v];
      Regroup(Enc(vs[0]), EncItems(vs[1..]), Enc(v), []);
    }
  }

  /** The loop of WriteTable over the map. */
  method WriteEntries(w: Buffer, es: seq<Entry>) returns (ok: bool)
    requires w.bytes == []
    modifies w
    ensures ok == forall i :: 0 <= i < |es| ==> Writable(es[i].value)
    ensures ok ==> w.bytes == EncEntries(es)
    decreases es, 0
  {
    ok := true;
    for i := 0 to |es|
      invariant forall j :: 0 <= j < i ==> Writable(es[j].value)
      invariant w.bytes == EncEntries(es[..i])
    {
      w.bytes := w.bytes + WriteShortstr(es[i].key);
      ok := WriteValue(w, es[i].value);
      if !ok { return; }
      assert es[..i + 1] == es[..i] + [es[i]];
      EntriesSnoc(es[..i], es[i]);
    }
    assert es[..|es|] == es;
  }

  lemma {:induction false} EntriesSnoc(es: seq<Entry>, e: Entry)
    ensures EncEntries(es + [e]) == EncEntries(es) + WriteShortstr(e.key) + Enc(e.value)
  {
    if es == [] {
      assert [] + [e] == [e] && [e][1..] == [];
    } else {
      var head, tail := WriteShortstr(es[0].key) + Enc(es[0].value), EncEntries(es[1..]);
      EntriesSnoc(es[1..], e);
      assert (es + [e])[1..] == es[1..] + [e];
      Regroup(head, tail, WriteShortstr(e.key), Enc(e.value));
    }
  }

  lemma Regroup(a: seq<Byte>, b: seq<Byte>, c: seq<Byte>, d: seq<Byte>)
    ensures a + (b + c + d) == a + b + c + d && a + (b + c) == a + b + c
  {
  }
}
