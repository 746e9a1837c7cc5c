/**
 The keys of msgstorage.go: "msg." queue "." id, with the ID in decimal. Keys are
 compared as byte strings by the database.
 */
module StorageKeys {
  import opened Words
  import Messages

  function Digit(d: nat): char
    requires d < 10
  {
    '0' + d as char
  }

  /** strconv.FormatInt in base 10. */
  function Decimal(n: nat): (s: string)
    ensures s != [] && '.' !in s && '-' !in s
  {
    if n < 10 then [Digit(n)] else Decimal(n / 10) + [Digit(n % 10)]
  }

  /** The uint64 ID is printed as an int64. */
  function FormatId(id: nat): (s: string)
    requires id < WORD64
    ensures s != [] && '.' !in s
  {
    if id < WORD63 then Decimal(id) else "-" + Decimal(WORD64 - id)
  }

  function Prefix(queue: string): string {
    "msg." + queue + "."
  }

  function MakeKey(id: nat, queue: string): string
    requires id < WORD64
  {
    Prefix(queue) + FormatId(id)
  }

  lemma {:induction false} DecimalInjective(a: nat, b: nat)
    requires Decimal(a) == Decimal(b)
    ensures a == b
  {
    var s := Decimal(a);
    if a >= 10 && b >= 10 {
      assert Decimal(a / 10) == s[..|s| - 1] == Decimal(b / 10);
      assert Digit(a % 10) == s[|s| - 1] == Digit(b % 10);
      DecimalInjective(a / 10, b / 10);
    } else if a < 10 {
      DecimalLong(b);
    } else {
      DecimalLong(a);
    }
  }

  lemma DecimalLong(n: nat)
    ensures |Decimal(n)| == 1 <==> n < 10
  {
    if n >= 10 {
      assert |Decimal(n)| == |Decimal(n / 10)| + 1;
    }
  }

  lemma FormatInjective(a: nat, b: nat)
    requires a < WORD64 && b < WORD64 && FormatId(a) == FormatId(b)
    ensures a == b
  {
    assert FormatId(a)[0] == '-' <==> a >= WORD63;
    assert FormatId(b)[0] == '-' <==> b >= WORD63;
    if a < WORD63 {
      DecimalInjective(a, b);
    } else {
      assert FormatId(a)[1..] == Decimal(WORD64 - a) && FormatId(b)[1..] == Decimal(WORD64 - b);
      DecimalInjective(WORD64 - a, WORD64 - b);
    }
  }

  /** The last dot of a key separates the queue name from the ID, so a key determines both. */
  lemma KeyInjective(id: nat, queue: string, id': nat, queue': string)
    requires id < WORD64 && id' < WORD64
    requires MakeKey(id, queue) == MakeKey(id', queue')
    ensures id == id' && queue == queue'
  {
    var k, d, d' := MakeKey(id, queue), FormatId(id), FormatId(id');
    LastDot(Prefix(queue), d, Prefix(queue'), d');
    assert Prefix(queue)[4..|queue| + 4] == queue && Prefix(queue')[4..|queue'| + 4] == queue';
    FormatInjective(id, id');
  }

  lemma LastDot(p: string, d: string, p': string, d': string)
    requires p + d == p' + d' && '.' !in d && '.' !in d'
    requires p != [] && p[|p| - 1] == '.' && p' != [] && p'[|p'| - 1] == '.'
    ensures p == p' && d == d'
  {
    var k := p + d;
    assert forall i :: |p| <= i < |k| ==> k[i] != '.';
    assert forall i :: |p'| <= i < |k| ==> k[i] != '.';
    assert k[|p| - 1] == '.' && k[|p'| - 1] == '.';
    assert k[..|p|] == p && k[|p|..] == d && k[..|p'|] == p' && k[|p'|..] == d';
  }

  /** The prefix scan of one queue meets a key of another exactly when the other's name extends the first
      by a dot: never, when names have no dots. */
  lemma ScanMeetsIff(scanned: string, id: nat, queue: string)
    requires id < WORD64
    ensures Prefix(scanned) <= MakeKey(id, queue) <==> scanned == queue || scanned + "." <= queue
    ensures '.' !in queue ==> (Prefix(scanned) <= MakeKey(id, queue) <==> scanned == queue)
  {
    var k, d := MakeKey(id, queue), FormatId(id);
    var p := Prefix(scanned);
    assert forall i :: |queue| + 5 <= i < |k| ==> k[i] != '.';
    if p <= k {
      assert k[|p| - 1] == '.';
      assert k[4..|p|] == scanned + ".";
      if |scanned| == |queue| {
        assert k[4..4 + |queue|] == queue;
        assert (scanned + ".")[..|queue|] == scanned;
      } else {
        assert k[4..|p|] == queue[..|p| - 4];
      }
    }
    if scanned + "." <= queue {
      assert queue == scanned + "." + queue[|scanned| + 1..];
      assert k == p + (queue[|scanned| + 1..] + "." + d);
      assert '.' == queue[|scanned|];
    }
  }

  // ---------------------------------------------------------------- order

  /** Byte order of strings. */
  predicate Before(a: string, b: string) {
    b != [] && (a == [] || a[0] < b[0] || (a[0] == b[0] && Before(a[1..], b[1..])))
  }

  function Pow10(n: nat): nat {
    if n == 0 then 1 else 10 * Pow10(n - 1)
  }

  lemma {:induction false} BeforeCommon(p: string, a: string, b: string)
    ensures Before(p + a, p + b) <==> Before(a, b)
  {
    if p == [] {
      assert p + a == a && p + b == b;
    } else {
      BeforeCommon(p[1..], a, b);
      assert (p + a)[1..] == p[1..] + a && (p + b)[1..] == p[1..] + b;
    }
  }

  /** Strings of equal length compare by their first part, then by their last characters. */
  lemma {:induction false} BeforeSnoc(a: string, x: char, b: string, y: char)
    requires |a| == |b|
    ensures Before(a + [x], b + [y]) <==> Before(a, b) || (a == b && x < y)
  {
    if a == [] {
      assert a + [x] == [x] && b + [y] == [y];
    } else {
      BeforeSnoc(a[1..], x, b[1..], y);
      assert (a + [x])[1..] == a[1..] + [x] && (b + [y])[1..] == b[1..] + [y];
      assert a == [a[0]] + a[1..] && b == [b[0]] + b[1..];
    }
  }

  /** A longer second string: only its first part decides, and equality there counts as before. */
  lemma {:induction false} BeforeLonger(a: string, b: string, y: char)
    requires |a| <= |b|
    ensures Before(a, b + [y]) <==> Before(a, b) || a == b
  {
    if a != [] {
      BeforeLonger(a[1..], b[1..], y);
      assert (b + [y])[1..] == b[1..] + [y];
      assert a == [a[0]] + a[1..] && b == [b[0]] + b[1..];
    } else if b == [] {
      assert b + [y] == [y];
    }
  }

  lemma {:induction false} EqualDigits(a: nat, b: nat)
    requires |Decimal(a)| == |Decimal(b)|
    ensures Before(Decimal(a), Decimal(b)) <==> a < b
  {
    DecimalLong(a);
    DecimalLong(b);
    if a >= 10 {
      EqualDigits(a / 10, b / 10);
      BeforeSnoc(Decimal(a / 10), Digit(a % 10), Decimal(b / 10), Digit(b % 10));
      if Decimal(a / 10) == Decimal(b / 10) { DecimalInjective(a / 10, b / 10); }
    }
  }

  /** When the second number has at least as many digits, byte order compares the first number, scaled up
      to the same length, with the second. */
  lemma {:induction false} ByteOrderIff(a: nat, b: nat)
    requires |Decimal(a)| < |Decimal(b)|
    ensures Before(Decimal(a), Decimal(b)) <==> a * Pow10(|Decimal(b)| - |Decimal(a)|) <= b
  {
    DecimalLong(b);
    var n := |Decimal(b)| - |Decimal(a)|;
    BeforeLonger(Decimal(a), Decimal(b / 10), Digit(b % 10));
    ScaledDown(a, Pow10(n - 1), b);
    if n == 1 {
      EqualDigits(a, b / 10);
      if Decimal(a) == Decimal(b / 10) { DecimalInjective(a, b / 10); }
    } else {
      ByteOrderIff(a, b / 10);
    }
  }

  lemma ScaledDown(a: nat, p: nat, b: nat)
    ensures a * p <= b / 10 <==> a * (10 * p) <= b
  {
    var x := a * p;
    assert a * (10 * p) == 10 * x;
  }

  lemma {:induction false} DigitsMonotone(a: nat, b: nat)
    requires a <= b
    ensures |Decimal(a)| <= |Decimal(b)|
  {
    DecimalLong(a);
    DecimalLong(b);
    if a >= 10 { DigitsMonotone(a / 10, b / 10); }
  }

  /** The keys of one queue sort like their IDs exactly when the smaller ID, padded to the length of the
      larger one, does not exceed it; so always for IDs of equally many digits, and not for 9 and 10. */
  lemma KeyOrderNumericIff(a: nat, b: nat, queue: string)
    requires a < b < WORD63
    ensures |Decimal(a)| <= |Decimal(b)|
    ensures Before(MakeKey(a, queue), MakeKey(b, queue)) <==> a * Pow10(|Decimal(b)| - |Decimal(a)|) <= b
  {
    DigitsMonotone(a, b);
    BeforeCommon(Prefix(queue), Decimal(a), Decimal(b));
    if |Decimal(a)| == |Decimal(b)| {
      EqualDigits(a, b);
    } else {
      ByteOrderIff(a, b);
    }
  }

  lemma {:induction false} BeforeTotal(a: string, b: string)
    requires a != b
    ensures Before(a, b) <==> !Before(b, a)
  {
    if a != [] && b != [] && a[0] == b[0] {
      assert a == [a[0]] + a[1..] && b == [b[0]] + b[1..];
      BeforeTotal(a[1..], b[1..]);
    }
  }

  /** Is the smaller ID listed first? IDs from 2^63 on are printed as negative numbers: they come before all
      others, and among themselves in the opposite order. */
  predicate ListedFirst(a: nat, b: nat)
    requires a < b < WORD64
  {
    if b < WORD63 then a * Pow10(Longer(a, b)) <= b
    else if a < WORD63 then false
    else (WORD64 - b) * Pow10(Longer(WORD64 - b, WORD64 - a)) > WORD64 - a
  }

  /** How many digits more the larger number has. */
  function Longer(a: nat, b: nat): nat
    requires a < b
  {
    DigitsMonotone(a, b);
    |Decimal(b)| - |Decimal(a)|
  }

  lemma NegativesListed(a: nat, b: nat)
    requires WORD63 <= a < b < WORD64
    ensures Before(FormatId(a), FormatId(b)) <==> ListedFirst(a, b)
  {
    var x, y := WORD64 - a, WORD64 - b;
    assert y < x;
    DigitsMonotone(y, x);
    if Decimal(x) == Decimal(y) { DecimalInjective(x, y); }
    BeforeTotal(Decimal(x), Decimal(y));
    BeforeCommon("-", Decimal(x), Decimal(y));
    if |Decimal(x)| == |Decimal(y)| { EqualDigits(y, x); } else { ByteOrderIff(y, x); }
  }

  lemma {:induction false} FirstDigit(n: nat)
    ensures '0' <= Decimal(n)[0] <= '9'
  {
    if n >= 10 { FirstDigit(n / 10); }
  }

  /** The order of two keys of one queue, for all IDs. */
  lemma KeyOrderIff(a: nat, b: nat, queue: string)
    requires a < b < WORD64
    ensures Before(MakeKey(a, queue), MakeKey(b, queue)) <==> ListedFirst(a, b)
  {
    BeforeCommon(Prefix(queue), FormatId(a), FormatId(b));
    if b < WORD63 {
      KeyOrderNumericIff(a, b, queue);
    } else if a < WORD63 {
      FirstDigit(a);
      assert FormatId(b)[0] == '-';
    } else {
      NegativesListed(a, b);
    }
  }

  ghost predicate Ids64(m: Messages.Store) {
    Messages.Keyed(m) && forall k :: k in m ==> k < WORD64
  }

  lemma IdInStore(m: Messages.Store, i: nat)
    requires Ids64(m) && i < |Messages.InOrder(m)|
    ensures Messages.InOrder(m)[i].id in m && Messages.InOrder(m)[i].id < WORD64
  {
    Messages.InOrderMember(m, Messages.InOrder(m)[i]);
  }

  /** Does the database hand out the keys of a queue's store in ID order, as BackedQueue.Scan does? */
  ghost predicate ScanFollowsIds(m: Messages.Store, queue: string)
    requires Ids64(m)
  {
    forall i, j :: 0 <= i < j < |Messages.InOrder(m)| ==>
      KeysInOrder(Messages.InOrder(m)[i].id, Messages.InOrder(m)[j].id, queue)
  }

  ghost predicate KeysInOrder(a: nat, b: nat, queue: string) {
    a < WORD64 && b < WORD64 && Before(MakeKey(a, queue), MakeKey(b, queue))
  }

  /** It does exactly when every smaller ID is listed before every larger one; so always for IDs of equally many
      digits, which IDs counted from the clock in nanoseconds have. */
  lemma ScanFollowsIdsIff(m: Messages.Store, queue: string)
    requires Ids64(m)
    ensures ScanFollowsIds(m, queue) <==> forall a, b :: a in m && b in m && a < b ==> ListedFirst(a, b)
  {
    var all := Messages.InOrder(m);
    Messages.InOrderAscends(m);
    if forall a, b :: a in m && b in m && a < b ==> ListedFirst(a, b) {
      forall i, j | 0 <= i < j < |all| ensures KeysInOrder(all[i].id, all[j].id, queue) {
        IdInStore(m, i);
        IdInStore(m, j);
        KeyOrderIff(all[i].id, all[j].id, queue);
      }
    }
    if ScanFollowsIds(m, queue) {
      forall a, b | a in m && b in m && a < b ensures ListedFirst(a, b) {
        PairListed(m, queue, a, b);
      }
    }
  }

  lemma PairListed(m: Messages.Store, queue: string, a: nat, b: nat)
    requires Ids64(m) && ScanFollowsIds(m, queue) && a in m && b in m && a < b
    ensures ListedFirst(a, b)
  {
    var all := Messages.InOrder(m);
    Messages.InOrderAscends(m);
    Messages.InOrderMember(m, m[a]);
    Messages.InOrderMember(m, m[b]);
    var i :| 0 <= i < |all| && all[i] == m[a];
    var j :| 0 <= j < |all| && all[j] == m[b];
    assert i < j;
    KeyOrderIff(a, b, queue);
  }

  /** IDs of equally many digits are handed out in order. */
  lemma EqualDigitsFollow(m: Messages.Store, queue: string)
    requires Ids64(m) && (forall k :: k in m ==> k < WORD63)
    requires forall a, b :: a in m && b in m ==> |Decimal(a)| == |Decimal(b)|
    ensures ScanFollowsIds(m, queue)
  {
    ScanFollowsIdsIff(m, queue);
  }

  /** The key of message 10 comes before that of message 9. */
  lemma TenBeforeNine(queue: string)
    ensures !Before(MakeKey(9, queue), MakeKey(10, queue))
  {
    assert Decimal(10) == Decimal(1) + [Digit(0)] && |Decimal(9)| == 1;
    KeyOrderNumericIff(9, 10, queue);
    assert Pow10(1) == 10;
  }

  /** The scan of queue a meets the messages of queue a.b. */
  lemma DottedNeighbourMet(id: nat)
    requires id < WORD64
    ensures Prefix("a") <= MakeKey(id, "a.b")
  {
    ScanMeetsIff("a", id, "a.b");
  }
}
