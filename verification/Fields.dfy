/**
 One field of a method or of a property list, by its AMQP domain, with the reader
 and writer functions the generator names after the domain (amqp/readers_writers.go).
 */
module Fields {
  import opened Bytes
  import opened Words
  import T = Tables

  /** The keys of baseDomainsMap. */
  datatype Kind = Octet | Short | Long | LongLong | Timestamp | ShortStr | LongStr | Bit | FieldTable

  datatype Datum = Num(n: nat) | At(seconds: I64) | Text(s: seq<Byte>) | Flag(b: bool) | Entries(es: seq<T.Entry>)

  function WidthOf(k: Kind): nat {
    match k
    case Octet => 1
    case Short => 2
    case Long => 4
    case LongLong => 8
    case Timestamp => 8
    case _ => 0
  }

  /** A value of the field's Go type that its encoding can carry. */
  ghost predicate Holds(k: Kind, d: Datum) {
    match k
    case Timestamp => d.At?
    case ShortStr => d.Text? && |d.s| < WORD8
    case LongStr => d.Text? && |d.s| < WORD32
    case Bit => d.Flag?
    case FieldTable => d.Entries? && T.EntriesFit(d.es)
    case _ => d.Num? && d.n < Pow(256, WidthOf(k))
  }

  /** Tables are the only fields whose writer can refuse. */
  predicate Writable(d: Datum) {
    d.Entries? ==> T.Writable(T.Table(d.es))
  }

  function EncField(k: Kind, d: Datum): seq<Byte> {
    match d
    case Num(n) => Be(n, WidthOf(k))
    case At(t) => Be(ToBits(t, WORD64), 8)
    case Text(s) => if k == ShortStr then WriteShortstr(s) else WriteLongstr(s)
    case Flag(_) => []
    case Entries(es) => WriteLongstr(T.EncEntries(es))
  }

  function TextOf(r: Read<seq<Byte>>): Read<Datum> {
    if r.Err? then Err else Ok(Text(r.value), r.rest)
  }

  /** There is no reader for a single bit; the emitted code unpacks bits itself. */
  function DecField(k: Kind, b: seq<Byte>): Read<Datum> {
    match k
    case Bit => Err
    case Timestamp =>
      Powers();
      var u := ReadUint(b, 8);
      if u.Err? then Err else Ok(At(ToSigned(u.value, WORD64)), u.rest)
    case ShortStr => TextOf(ReadShortstr(b))
    case LongStr => TextOf(ReadLongstr(b))
    case FieldTable =>
      var es := T.ReadTable(b);
      if es.Err? then Err else Ok(Entries(es.value), es.rest)
    case _ =>
      var u := ReadUint(b, WidthOf(k));
      if u.Err? then Err else Ok(Num(u.value), u.rest)
  }

  /** Tables come back normalised; everything else comes back as it was. */
  function NormDatum(d: Datum): Datum {
    if d.Entries? then Entries(T.NormEntries(d.es)) else d
  }

  lemma FieldRoundTrip(k: Kind, d: Datum, rest: seq<Byte>)
    requires k != Bit && Holds(k, d) && Writable(d)
    ensures DecField(k, EncField(k, d) + rest) == Ok(NormDatum(d), rest)
  {
    match k {
      case Bit =>
      case Timestamp =>
        Powers();
        ReadUintOfBe(ToBits(d.seconds, WORD64), 8, rest);
      case ShortStr => ShortstrRoundTripIff(d.s, rest);
      case LongStr => LongstrRoundTrip(d.s, rest);
      case FieldTable => T.TableRoundTrip(d.es, rest);
      case _ => ReadUintOfBe(d.n, WidthOf(k), rest);
    }
  }
}
