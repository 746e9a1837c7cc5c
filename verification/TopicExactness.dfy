/**
 When the topic expression accepts no more than the word-level rule. It often does: an
 odd run of # between two words swallows both dots, and a literal next to a # is matched
 without a word boundary.
 */
module TopicExactness {
  import opened Topic
  import Seqs

  /** From a word on: a run of # comes only after *, and a run that is followed by another word is even. */
  predicate ExactFrom(ws: seq<Word>)
    requires ws != []
  {
    var r := Hashes(ws[1..]);
    if r + 1 == |ws| then r > 0 ==> ws[0] == Star
    else (r > 0 ==> r % 2 == 0 && ws[0] == Star) && ExactFrom(ws[r + 1..])
  }

  /** A leading run is followed by * or by nothing. */
  predicate Exact(ws: seq<Word>) {
    var r := Hashes(ws);
    r == |ws| || ((r > 0 ==> ws[r] == Star) && ExactFrom(ws[r..]))
  }

  // ---------------------------------------------------------------- reading keys

  lemma {:induction false} TailIsJoin(ks: seq<string>)
    requires ks != []
    ensures Tail(ks) == "." + Join(ks)
  {
    assert "." + ks[0] + Tail(ks[1..]) == "." + (ks[0] + Tail(ks[1..]));
  }

  lemma {:induction false} CutFront(a: string, b: string, p: string, c: string)
    requires a + b == p + c && |a| <= |p|
    ensures p == a + p[|a|..] && b == p[|a|..] + c
  {
    assert (a + b)[..|a|] == a && (p + c)[..|a|] == p[..|a|];
    assert (a + b)[|a|..] == b && (p + c)[|a|..] == p[|a|..] + c;
  }

  lemma {:induction false} CharIn(a: string, b: string, p: string, c: string)
    requires a + b == p + c && |p| < |a| && c != ""
    ensures c[0] in a
  {
    assert (a + b)[|p|] == a[|p|] && (p + c)[|p|] == c[0];
  }

  /** A stretch without dots ends before the next dot. */
  lemma {:induction false} EndsBefore(a: string, b: string, p: string, y: string)
    requires a + b == p + ("." + y) && '.' !in a
    ensures |a| <= |p| && p == a + p[|a|..] && b == p[|a|..] + ("." + y)
  {
    if |p| < |a| { CharIn(a, b, p, "." + y); }
    CutFront(a, b, p, "." + y);
  }

  lemma {:induction false} NonEmpty(p: string, k: string)
    requires k != ""
    ensures p + k != ""
  {
    assert |p + k| > 0;
  }

  /** A dot in a key stands before a word. */
  lemma {:induction false} AtDot(ks: seq<string>, p: string, y: string) returns (j: nat)
    requires KeyOk(ks) && Join(ks) == p + ("." + y)
    ensures 1 <= j < |ks| && y == Join(ks[j..])
  {
    NonEmpty(p, "." + y);
    var a, us := ks[0], ks[1..];
    assert KeyWord(a);
    EndsBefore(a, Tail(us), p, y);
    var q := p[|a|..];
    NonEmpty(q, "." + y);
    TailIsJoin(us);
    if q == "" {
      j := 1;
      assert Tail(us)[1..] == Join(us) && ("" + ("." + y))[1..] == y;
    } else {
      CutFront(".", Join(us), q, "." + y);
      j := AtDot(us, q[1..], y);
      assert us[j..] == ks[j + 1..];
      j := j + 1;
    }
  }

  /** A dot directly after a stretch without dots ends the first word. */
  lemma {:induction false} FirstDot(ks: seq<string>, s: string, y: string)
    requires KeyOk(ks) && Join(ks) == s + ("." + y) && '.' !in s
    ensures |ks| >= 2 && ks[0] == s && y == Join(ks[1..])
  {
    var j := AtDot(ks, s, y);
    var a, us := ks[0], ks[1..];
    assert KeyWord(a);
    TailIsJoin(us);
    EndsBefore(a, Tail(us), s, y);
    EndsBefore(s, "." + y, a, Join(us));
    assert a == s;
    assert Tail(us)[1..] == Join(us) && ("." + y)[1..] == y;
    assert s[|a|..] == "" && "" + ("." + y) == "." + y;
  }

  lemma {:induction false} DotInside(ks: seq<string>)
    requires |ks| > 1
    ensures '.' in Join(ks)
  {
    TailIsJoin(ks[1..]);
    assert Join(ks)[|ks[0]|] == '.';
  }

  lemma {:induction false} NoDot(ks: seq<string>)
    requires KeyOk(ks) && ks != [] && '.' !in Join(ks)
    ensures ks == [Join(ks)]
  {
    if |ks| > 1 { DotInside(ks); }
    assert ks[1..] == [] && ks[0] + "" == ks[0];
  }

  lemma {:induction false} KeyWordSuffix(a: string, n: nat)
    requires KeyWord(a) && n < |a|
    ensures KeyWord(a[n..])
  {
    forall c | c in a[n..] ensures c != '.' && c != '\n' { assert c in a; }
  }

  /** A suffix of a key that does not start with a dot starts inside a word. */
  lemma {:induction false} InsideWord(ks: seq<string>, p: string, k: string) returns (j: nat, s: string)
    requires KeyOk(ks) && Join(ks) == p + k && k != "" && k[0] != '.'
    ensures j < |ks| && KeyWord(s) && k == Join([s] + ks[j + 1..])
  {
    NonEmpty(p, k);
    var a, us := ks[0], ks[1..];
    assert KeyWord(a);
    if |p| < |a| {
      j, s := 0, a[|p|..];
      KeyWordSuffix(a, |p|);
      assert (a + Tail(us))[|p|..] == s + Tail(us) && (p + k)[|p|..] == k;
      assert ([s] + us)[1..] == us;
    } else {
      CutFront(a, Tail(us), p, k);
      var q := p[|a|..];
      NonEmpty(q, k);
      TailIsJoin(us);
      assert (q + k)[0] == '.';
      CutFront(".", Join(us), q, k);
      j, s := InsideWord(us, q[1..], k);
      assert us[j + 1..] == ks[j + 2..];
      j := j + 1;
    }
  }

  // ---------------------------------------------------------------- accepts no more

  lemma {:induction false} Unanys(r: nat, ts: seq<Tok>, k: string) returns (n: nat)
    requires Matches(Anys(r) + ts, k)
    ensures n <= |k| && Matches(ts, k[n..]) && (r == 0 ==> n == 0)
  {
    if r == 0 {
      n := 0;
      assert Anys(0) + ts == ts && k[0..] == k;
    } else {
      assert Anys(r) + ts == [Any] + (Anys(r - 1) + ts);
      var m := Unfirst(Any, Anys(r - 1) + ts, k);
      n := Unanys(r - 1, ts, k[m..]);
      assert k[m..][n..] == k[m + n..];
      n := m + n;
    }
  }

  /** An even gap ends in a dot; a gap of none is a dot. */
  lemma {:induction false} Ungap(r: nat, ts: seq<Tok>, k: string) returns (p: string, y: string)
    requires r % 2 == 0 && Matches(Gap(r) + ts, k)
    ensures k == p + ("." + y) && Matches(ts, y) && (r == 0 ==> p == "")
  {
    Seqs.Assoc(Anys(r), [Sep], ts);
    var n := Unanys(r, [Sep] + ts, k);
    var m := Unfirst(Sep, ts, k[n..]);
    p, y := k[..n], k[n..][m..];
    Seqs.Cut(k, n);
    Seqs.Cut(k[n..], m);
  }

  /** A run of # may take any number of words. */
  lemma {:induction false} Absorb(ws: seq<Word>, ks: seq<string>, j: nat)
    requires j <= |ks| && (Hashes(ws) == 0 ==> j == 0) && WordMatch(ws[Hashes(ws)..], ks[j..])
    ensures WordMatch(ws, ks)
    decreases |ws| + |ks|
  {
    if Hashes(ws) == 0 {
      assert ws[0..] == ws && ks[0..] == ks;
    } else if j > 0 {
      assert ks[1..][j - 1..] == ks[j..];
      Absorb(ws, ks[1..], j - 1);
    } else {
      assert ws[1..][Hashes(ws[1..])..] == ws[Hashes(ws)..];
      Absorb(ws[1..], ks, 0);
    }
  }

  lemma {:induction false} AllHashes(ws: seq<Word>, ks: seq<string>)
    requires Hashes(ws) == |ws| > 0
    ensures WordMatch(ws, ks)
  {
    assert ws[|ws|..] == [] && ks[|ks|..] == [];
    Absorb(ws, ks, |ks|);
  }

  /** The first piece of an expression that starts with a word. */
  lemma {:induction false} FirstWord(ws: seq<Word>, k: string) returns (s: string, x: string)
    requires ws != [] && ws[0] != Hash && LitsOk(ws) && Matches(From(ws), k)
    ensures k == s + x && Takes(Tok1(ws[0]), s) && s != "" && '.' !in s && Matches(After(ws[1..]), x)
  {
    var n := Unfirst(Tok1(ws[0]), After(ws[1..]), k);
    s, x := k[..n], k[n..];
    assert k == k[..n] + k[n..];
    if ws[0].Lit? { assert KeyWord(ws[0].text); }
  }

  lemma {:induction false} WordThen(ws: seq<Word>, ks: seq<string>, s: string)
    requires ws != [] && ws[0] != Hash && ks != [] && WordMatch(ws[1..], ks[1..])
    requires ws[0] == Star || (Takes(Tok1(ws[0]), s) && ks[0] == s)
    ensures WordMatch(ws, ks)
  {
  }

  /** An even gap leads from the first word to the start of a later one. */
  lemma {:induction false} NextWord(us: seq<Word>, ks: seq<string>, s: string, x: string) returns (j: nat)
    requires Hashes(us) < |us| && Hashes(us) % 2 == 0 && Matches(After(us), x)
    requires KeyOk(ks) && Join(ks) == s + x && '.' !in s
    ensures 1 <= j < |ks| && Matches(From(us[Hashes(us)..]), Join(ks[j..]))
    ensures Hashes(us) == 0 ==> j == 1 && ks[0] == s
  {
    var r := Hashes(us);
    assert us[r..][1..] == us[r + 1..];
    var p, y := Ungap(r, From(us[r..]), x);
    assert s + (p + ("." + y)) == (s + p) + ("." + y);
    if r == 0 {
      assert s + p == s;
      FirstDot(ks, s, y);
      j := 1;
    } else {
      j := AtDot(ks, s + p, y);
    }
  }

  /** The first word, then a run that takes the words up to j. */
  lemma {:induction false} Resume(ws: seq<Word>, ks: seq<string>, s: string, j: nat)
    requires ws != [] && ws[0] != Hash && 1 <= j <= |ks| && (Hashes(ws[1..]) == 0 ==> j == 1 && ks[0] == s)
    requires Hashes(ws[1..]) > 0 ==> ws[0] == Star
    requires Takes(Tok1(ws[0]), s) && WordMatch(ws[Hashes(ws[1..]) + 1..], ks[j..])
    ensures WordMatch(ws, ks)
  {
    assert ws[1..][Hashes(ws[1..])..] == ws[Hashes(ws[1..]) + 1..];
    assert ks[1..][j - 1..] == ks[j..];
    Absorb(ws[1..], ks[1..], j - 1);
    WordThen(ws, ks, s);
  }

  /** A pattern of one word. */
  lemma {:induction false} OneWord(ws: seq<Word>, ks: seq<string>)
    requires |ws| == 1 && ws[0] != Hash && LitsOk(ws) && KeyOk(ks) && ks != [] && Matches(From(ws), Join(ks))
    ensures WordMatch(ws, ks)
  {
    var s, x := FirstWord(ws, Join(ks));
    assert ws[1..] == [] && x == "" && s + x == s;
    NoDot(ks);
    assert ks[1..] == [];
  }

  lemma {:induction false} TrailingRun(ws: seq<Word>, ks: seq<string>)
    requires |ws| > 1 && ws[0] == Star && Hashes(ws[1..]) + 1 == |ws| && ks != []
    ensures WordMatch(ws, ks)
  {
    AllHashes(ws[1..], ks[1..]);
  }

  /** The rest of an exact pattern, from a word on. */
  ghost predicate ExactWord(ws: seq<Word>) {
    ws != [] && ws[0] != Hash && LitsOk(ws) && ExactFrom(ws)
  }

  /** The rest of a key, from a word on, that the expression accepts. */
  ghost predicate Accepted(ws: seq<Word>, ks: seq<string>) {
    ws != [] && KeyOk(ks) && ks != [] && Matches(From(ws), Join(ks))
  }

  /** What follows a word of an exact pattern, up to the next word, and from it on. */
  lemma {:induction false} ExactNext(ws: seq<Word>)
    requires ExactWord(ws) && Hashes(ws[1..]) + 1 < |ws|
    ensures var r := Hashes(ws[1..]);
            && r % 2 == 0 && (r > 0 ==> ws[0] == Star) && ws[1..][r..] == ws[r + 1..]
            && ExactWord(ws[r + 1..])
  {
    LitsSuffix(ws, Hashes(ws[1..]) + 1);
  }

  /** From one word of an exact pattern to the next. */
  lemma {:induction false} Descend(ws: seq<Word>, ks: seq<string>) returns (s: string, j: nat)
    requires ws != [] && ws[0] != Hash && LitsOk(ws) && Hashes(ws[1..]) + 1 < |ws| && Hashes(ws[1..]) % 2 == 0
    requires Accepted(ws, ks)
    ensures 1 <= j < |ks| && Accepted(ws[1..][Hashes(ws[1..])..], ks[j..])
    ensures Takes(Tok1(ws[0]), s) && (Hashes(ws[1..]) == 0 ==> j == 1 && ks[0] == s)
  {
    var x;
    s, x := FirstWord(ws, Join(ks));
    j := NextWord(ws[1..], ks, s, x);
    KeySuffix(ks, j);
  }

  lemma {:induction false} FromExact(ws: seq<Word>, ks: seq<string>)
    requires ExactWord(ws) && Accepted(ws, ks)
    ensures WordMatch(ws, ks)
    decreases |ws|
  {
    var r := Hashes(ws[1..]);
    if |ws| == 1 {
      OneWord(ws, ks);
    } else if r + 1 == |ws| {
      TrailingRun(ws, ks);
    } else {
      ExactNext(ws);
      var s, j := Descend(ws, ks);
      FromExact(ws[r + 1..], ks[j..]);
      Resume(ws, ks, s, j);
    }
  }

  lemma {:induction false} EmptyKey(ws: seq<Word>)
    requires ws != [] && ws[0] != Hash && LitsOk(ws)
    ensures !Matches(From(ws), "")
  {
    if Matches(From(ws), "") {
      var s, x := FirstWord(ws, "");
    }
  }

  /** Behind a leading run, the expression may start inside a word; a * does not notice. */
  lemma {:induction false} BehindRun(ws: seq<Word>, ks: seq<string>, p: string, k: string)
    requires Hashes(ws) < |ws| && ws[Hashes(ws)] == Star && Hashes(ws) > 0
    requires LitsOk(ws) && ExactFrom(ws[Hashes(ws)..])
    requires KeyOk(ks) && Join(ks) == p + k && Matches(From(ws[Hashes(ws)..]), k)
    ensures WordMatch(ws, ks)
  {
    var vs := ws[Hashes(ws)..];
    var a, x := FirstWord(vs, k);
    assert k[0] == a[0] && a[0] in a;
    var j, s := InsideWord(ks, p, k);
    var part := [s] + ks[j + 1..];
    FromExact(vs, part);
    assert part[1..] == ks[j + 1..] == ks[j..][1..];
    assert WordMatch(vs, ks[j..]);
    Absorb(ws, ks, j);
  }

  /** An exact pattern accepts only what the rule accepts. */
  lemma {:induction false} ExactAccepts(ws: seq<Word>, ks: seq<string>)
    requires PatternOk(ws) && KeyOk(ks) && Exact(ws) && Matches(Compiled(ws), Join(ks))
    ensures WordMatch(ws, ks)
  {
    var r := Hashes(ws);
    if r == |ws| {
      AllHashes(ws, ks);
    } else if r > 0 {
      var n := Unfirst(Any, From(ws[r..]), Join(ks));
      Seqs.Cut(Join(ks), n);
      BehindRun(ws, ks, Join(ks)[..n], Join(ks)[n..]);
    } else {
      assert ws[0..] == ws && [] + From(ws) == From(ws);
      if ks == [] {
        EmptyKey(ws);
      } else {
        FromExact(ws, ks);
      }
    }
  }

  // ---------------------------------------------------------------- accepts too much

  function Count(ws: seq<Word>): nat {
    if ws == [] then 0 else (if ws[0] == Hash then 0 else 1) + Count(ws[1..])
  }

  lemma {:induction false} CountDropsRun(ws: seq<Word>)
    ensures Count(ws) == Count(ws[Hashes(ws)..])
  {
    if ws != [] && ws[0] == Hash {
      CountDropsRun(ws[1..]);
      assert ws[1..][Hashes(ws[1..])..] == ws[Hashes(ws)..];
    } else {
      assert ws[0..] == ws;
    }
  }

  /** The rule needs a word for every part that is not #. */
  lemma {:induction false} NeedsWords(ws: seq<Word>, ks: seq<string>)
    requires WordMatch(ws, ks)
    ensures |ks| >= Count(ws)
    decreases |ws| + |ks|
  {
    if ws != [] {
      if ws[0] != Hash {
        NeedsWords(ws[1..], ks[1..]);
      } else if WordMatch(ws[1..], ks) {
        NeedsWords(ws[1..], ks);
      } else {
        NeedsWords(ws, ks[1..]);
      }
    }
  }

  /** A refusal for want of spare words is not cured by a run of # in front. */
  lemma {:induction false} StillRefused(ws: seq<Word>, ks: seq<string>)
    requires !WordMatch(ws[Hashes(ws)..], ks) && |ks| <= Count(ws)
    ensures !WordMatch(ws, ks)
  {
    if WordMatch(ws, ks) {
      var j := Absorbed(ws, ks);
      CountDropsRun(ws);
      assert ks[0..] == ks;
      NeedsWords(ws[Hashes(ws)..], ks[j..]);
    }
  }

  function Sample(w: Word): string {
    if w.Lit? then w.text else "x"
  }

  /** A key for a pattern: every # takes no word. */
  function Samples(ws: seq<Word>): seq<string> {
    if ws == [] then [] else (if ws[0] == Hash then [] else [Sample(ws[0])]) + Samples(ws[1..])
  }

  lemma {:induction false} SampleOk(w: Word)
    requires w.Lit? ==> PatternWord(w.text)
    ensures KeyWord(Sample(w))
  {
  }

  lemma {:induction false} SamplesMatch(ws: seq<Word>)
    requires LitsOk(ws)
    ensures KeyOk(Samples(ws)) && WordMatch(ws, Samples(ws)) && |Samples(ws)| == Count(ws)
  {
    if ws != [] {
      SamplesMatch(ws[1..]);
      SampleOk(ws[0]);
      if ws[0] == Hash {
        assert [] + Samples(ws[1..]) == Samples(ws[1..]);
      } else {
        assert Samples(ws)[1..] == Samples(ws[1..]);
      }
    }
  }

  lemma {:induction false} Longer(a: string)
    requires KeyWord(a)
    ensures KeyWord(a + "x") && a + "x" != a
  {
    assert |a + "x"| == |a| + 1;
  }

  lemma {:induction false} Glued(a: string, b: string)
    requires KeyWord(a) && KeyWord(b)
    ensures KeyWord(a + b)
  {
  }

  /** A key made of one odd word and the samples of the rest. */
  lemma {:induction false} OddKey(w: string, ws: seq<Word>)
    requires KeyWord(w) && LitsOk(ws)
    ensures var ks := [w] + Samples(ws);
            && KeyOk(ks) && |ks| == Count(ws) + 1 && Join(ks) == w + Tail(Samples(ws))
            && Matches(After(ws), Tail(Samples(ws)))
  {
    SamplesMatch(ws);
    AfterAccepts(ws, Samples(ws));
    assert ([w] + Samples(ws))[1..] == Samples(ws);
  }

  /** Trailing run after a literal: a.# on ax. */
  lemma {:induction false} BadTrailing(ws: seq<Word>) returns (ks: seq<string>)
    requires ws != [] && ws[0].Lit? && LitsOk(ws) && Hashes(ws[1..]) == |ws| - 1 > 0
    ensures KeyOk(ks) && 0 < |ks| <= Count(ws) && Matches(From(ws), Join(ks)) && !WordMatch(ws, ks)
  {
    var a := ws[0].text;
    ks := [a + "x"];
    Longer(a);
    AnyTakes("x");
    First(Any, "x", [], "");
    assert [Any] + [] == [Any] && "x" + "" == "x";
    First(Text(a), a, [Any], "x");
    assert ks[1..] == [] && a + "x" + "" == a + "x";
  }

  /** Odd run between two words: a.#.b on ab. */
  lemma {:induction false} BadOdd(ws: seq<Word>) returns (ks: seq<string>)
    requires ws != [] && ws[0] != Hash && LitsOk(ws) && Hashes(ws[1..]) < |ws| - 1 && Hashes(ws[1..]) % 2 == 1
    ensures KeyOk(ks) && 0 < |ks| <= Count(ws) && Matches(From(ws), Join(ks)) && !WordMatch(ws, ks)
  {
    var us := ws[1..];
    var r := Hashes(us);
    var v, vs := us[r], us[r + 1..];
    var a, b := Sample(ws[0]), Sample(v);
    SampleOk(ws[0]);
    SampleOk(v);
    Glued(a, b);
    OddKey(a + b, vs);
    ks := [a + b] + Samples(vs);
    GluedMatches(ws[0], v, r, After(vs), Tail(Samples(vs)));
    CountDropsRun(us);
    assert us[r..][1..] == vs;
    if WordMatch(ws, ks) { NeedsWords(ws, ks); }
  }

  lemma {:induction false} EmptyOddGap(r: nat, ts: seq<Tok>, k: string)
    requires r % 2 == 1 && Matches(ts, k)
    ensures Matches(Gap(r) + ts, k)
  {
    OddGap(r, "", ts, k);
    assert "" + k == k;
  }

  lemma {:induction false} GluedMatches(u: Word, v: Word, r: nat, ts: seq<Tok>, k: string)
    requires u != Hash && v != Hash && r % 2 == 1 && Matches(ts, k)
    requires KeyWord(Sample(u)) && KeyWord(Sample(v))
    ensures Matches([Tok1(u)] + (Gap(r) + ([Tok1(v)] + ts)), Sample(u) + Sample(v) + k)
  {
    WordTakes(u, Sample(u));
    WordTakes(v, Sample(v));
    GluedPieces(Tok1(u), Sample(u), Tok1(v), Sample(v), r, ts, k);
  }

  lemma {:induction false} GluedPieces(t: Tok, a: string, u: Tok, b: string, r: nat, ts: seq<Tok>, k: string)
    requires Takes(t, a) && Takes(u, b) && r % 2 == 1 && Matches(ts, k)
    ensures Matches([t] + (Gap(r) + ([u] + ts)), a + b + k)
  {
    First(u, b, ts, k);
    EmptyOddGap(r, [u] + ts, b + k);
    First(t, a, Gap(r) + ([u] + ts), b + k);
    Seqs.Assoc(a, b, k);
  }

  /** A literal, a stray x, and an even gap before the next word. */
  lemma {:induction false} StrayMatches(a: string, r: nat, ts: seq<Tok>, k: string)
    requires 0 < r && r % 2 == 0 && Matches(ts, k)
    ensures Matches([Text(a)] + (Gap(r) + ts), a + "x" + ("." + k))
  {
    EvenGap(r, "x", ts, k);
    First(Text(a), a, Gap(r) + ts, "x" + ("." + k));
    Seqs.Assoc(a, "x", "." + k);
  }

  /** Even run after a literal: a.#.#.b on ax.b. */
  lemma {:induction false} BadEven(ws: seq<Word>) returns (ks: seq<string>)
    requires ws != [] && ws[0].Lit? && LitsOk(ws)
    requires 0 < Hashes(ws[1..]) < |ws| - 1 && Hashes(ws[1..]) % 2 == 0
    ensures KeyOk(ks) && 0 < |ks| <= Count(ws) && Matches(From(ws), Join(ks)) && !WordMatch(ws, ks)
  {
    var us := ws[1..];
    var r := Hashes(us);
    var a := ws[0].text;
    Longer(a);
    LitsSuffix(ws, r + 1);
    assert us[r..] == ws[r + 1..] && us[r..][1..] == us[r + 1..];
    OddKey(a + "x", us[r..]);
    ks := [a + "x"] + Samples(us[r..]);
    CountDropsRun(us);
    SamplesMatch(us[r..]);
    FromAccepts(us[r..], Samples(us[r..]));
    TailIsJoin(Samples(us[r..]));
    StrayMatches(a, r, From(us[r..]), Join(Samples(us[r..])));
  }

  /** A failure further on is reached through the sample of the first word. */
  lemma {:induction false} BadLater(ws: seq<Word>, later: seq<string>) returns (ks: seq<string>)
    requires ws != [] && ws[0] != Hash && LitsOk(ws) && Hashes(ws[1..]) < |ws| - 1
    requires KeyOk(later) && 0 < |later| <= Count(ws[1..])
    requires Matches(From(ws[1..][Hashes(ws[1..])..]), Join(later)) && !WordMatch(ws[1..][Hashes(ws[1..])..], later)
    ensures KeyOk(ks) && 0 < |ks| <= Count(ws) && Matches(From(ws), Join(ks)) && !WordMatch(ws, ks)
  {
    var us := ws[1..];
    var r := Hashes(us);
    var a := Sample(ws[0]);
    SampleOk(ws[0]);
    WordTakes(ws[0], a);
    ks := [a] + later;
    assert ks[1..] == later && us[r..][1..] == us[r + 1..];
    GapTakes(r, "", From(us[r..]), Join(later));
    TailIsJoin(later);
    assert "" + Tail(later) == Tail(later);
    First(Tok1(ws[0]), a, After(us), Tail(later));
    StillRefused(us, later);
  }

  lemma {:induction false} BadFrom(ws: seq<Word>) returns (ks: seq<string>)
    requires ws != [] && ws[0] != Hash && LitsOk(ws) && !ExactFrom(ws)
    ensures KeyOk(ks) && 0 < |ks| <= Count(ws) && Matches(From(ws), Join(ks)) && !WordMatch(ws, ks)
    decreases |ws|
  {
    var us := ws[1..];
    var r := Hashes(us);
    if r == |us| {
      ks := BadTrailing(ws);
    } else if r % 2 == 1 {
      ks := BadOdd(ws);
    } else if r > 0 && ws[0] != Star {
      ks := BadEven(ws);
    } else {
      assert us[r..] == ws[r + 1..];
      var later := BadFrom(us[r..]);
      CountDropsRun(us);
      ks := BadLater(ws, later);
    }
  }

  lemma {:induction false} LeadingMatches(a: string, ts: seq<Tok>, k: string)
    requires Matches(ts, k)
    ensures Matches([Any] + ([Text(a)] + ts), "x" + a + k)
  {
    First(Text(a), a, ts, k);
    AnyTakes("x");
    First(Any, "x", [Text(a)] + ts, a + k);
    Seqs.Assoc("x", a, k);
  }

  /** A leading literal refuses a longer word. */
  lemma {:induction false} LongerRefused(ws: seq<Word>, ks: seq<string>)
    requires ws != [] && ws[0].Lit? && ks != [] && ks[0] == "x" + ws[0].text
    ensures !WordMatch(ws, ks)
  {
    assert |ks[0]| == |ws[0].text| + 1;
  }

  /** Leading run before a literal: #.a on xa. */
  lemma {:induction false} BadLeading(ws: seq<Word>) returns (ks: seq<string>)
    requires 0 < Hashes(ws) < |ws| && ws[Hashes(ws)].Lit? && LitsOk(ws)
    ensures KeyOk(ks) && Matches(Compiled(ws), Join(ks)) && !WordMatch(ws, ks)
  {
    var r := Hashes(ws);
    var vs, us := ws[r..], ws[r + 1..];
    var a := ws[r].text;
    LitsSuffix(ws, r + 1);
    Glued("x", a);
    OddKey("x" + a, us);
    ks := ["x" + a] + Samples(us);
    LeadingMatches(a, After(us), Tail(Samples(us)));
    assert vs[0] == ws[r] && vs[1..] == us;
    LongerRefused(vs, ks);
    CountDropsRun(ws);
    StillRefused(ws, ks);
  }

  lemma {:induction false} OverAccepts(ws: seq<Word>) returns (ks: seq<string>)
    requires PatternOk(ws) && !Exact(ws)
    ensures KeyOk(ks) && Matches(Compiled(ws), Join(ks)) && !WordMatch(ws, ks)
  {
    var r := Hashes(ws);
    if r > 0 && ws[r] != Star {
      ks := BadLeading(ws);
    } else {
      ks := BadFrom(ws[r..]);
      CountDropsRun(ws);
      StillRefused(ws, ks);
      if r > 0 {
        AnyTakes("");
        First(Any, "", From(ws[r..]), Join(ks));
        assert "" + Join(ks) == Join(ks);
      } else {
        assert [] + From(ws[r..]) == From(ws[r..]);
      }
    }
  }

  /** The expression agrees with the topic rule on every key exactly for these patterns: each run of # stands
      next to * (before it when leading, after it otherwise), and runs between words are even. */
  lemma {:induction false} ExactIff(ws: seq<Word>)
    requires PatternOk(ws)
    ensures (forall ks :: KeyOk(ks) ==> (Matches(Compiled(ws), Join(ks)) <==> WordMatch(ws, ks))) <==> Exact(ws)
  {
    if Exact(ws) {
      forall ks | KeyOk(ks) ensures Matches(Compiled(ws), Join(ks)) <==> WordMatch(ws, ks) {
        if WordMatch(ws, ks) { NeverMisses(ws, ks); }
        if Matches(Compiled(ws), Join(ks)) { ExactAccepts(ws, ks); }
      }
    } else {
      var ks := OverAccepts(ws);
      assert KeyOk(ks);
    }
  }

  /** a.#.b accepts ab. */
  lemma {:induction false} HashGluesWords()
    ensures var ws := [Lit("a"), Hash, Lit("b")];
            Matches(Compiled(ws), Join(["ab"])) && !WordMatch(ws, ["ab"])
  {
    var ws := [Lit("a"), Hash, Lit("b")];
    GluedMatches(Lit("a"), Lit("b"), 1, [], "");
    assert ws[1..] == [Hash, Lit("b")] && ws[1..][1..] == [Lit("b")] && ws[1..][2..] == [];
    assert Hashes(ws[1..]) == 1 && ws[0..] == ws;
    assert After([]) == [];
    assert Compiled(ws) == [] + From(ws) == From(ws);
    assert Join(["ab"]) == "a" + "b" + "";
    assert Count(ws[1..][1..]) == 1 && Count(ws) == 2;
    if WordMatch(ws, ["ab"]) { NeedsWords(ws, ["ab"]); }
  }
}
