/**
 Topic bindings: what the regular expression built by buildRegexp (binding/binding.go)
 accepts, against the word-level rule of section 3.1.3.3 of AMQP 0-9-1.
 */
module Topic {
  import Seqs

  /** A part of a binding pattern between dots. */
  datatype Word = Star | Hash | Lit(text: string)

  /** A piece of the expression: an escaped dot, one word ([^\.]+), anything ((.*\.?)+), an escaped literal,
      a # that has not been rewritten yet, or what becomes of a * inside a word: \([^\.]+), whose parentheses do not
      match, so that no such expression compiles. */
  datatype Tok = Sep | One | Any | Text(text: string) | Mark | Stray

  predicate KeyWord(s: string) {
    s != "" && forall c :: c in s ==> c != '.' && c != '\n'
  }

  /** Literals that escaping and the rewriting of * and # leave alone. */
  predicate PatternWord(s: string) {
    KeyWord(s) && forall c :: c in s ==> c != '*' && c != '#' && c != '\\'
  }

  predicate PatternOk(ws: seq<Word>) {
    ws != [] && LitsOk(ws)
  }

  predicate LitsOk(ws: seq<Word>) {
    forall i :: 0 <= i < |ws| && ws[i].Lit? ==> PatternWord(ws[i].text)
  }

  predicate KeyOk(ks: seq<string>) {
    forall i :: 0 <= i < |ks| ==> KeyWord(ks[i])
  }

  // ---------------------------------------------------------------- keys

  function Tail(ks: seq<string>): string {
    if ks == [] then "" else "." + ks[0] + Tail(ks[1..])
  }

  /** The routing key of a list of words. */
  function Join(ks: seq<string>): string {
    if ks == [] then "" else ks[0] + Tail(ks[1..])
  }

  lemma {:induction false} LitsSuffix(ws: seq<Word>, n: nat)
    requires LitsOk(ws) && n <= |ws|
    ensures LitsOk(ws[n..])
  {
    var us := ws[n..];
    forall i | 0 <= i < |us| && us[i].Lit? ensures PatternWord(us[i].text) { assert us[i] == ws[n + i]; }
  }

  lemma {:induction false} KeySuffix(ks: seq<string>, n: nat)
    requires KeyOk(ks) && n <= |ks|
    ensures KeyOk(ks[n..])
  {
    forall i | 0 <= i < |ks[n..]| ensures KeyWord(ks[n..][i]) { assert ks[n..][i] == ks[n + i]; }
  }

  // ---------------------------------------------------------------- the word-level rule

  /** * is exactly one word, # is zero or more. */
  predicate WordMatch(ws: seq<Word>, ks: seq<string>)
    decreases |ws| + |ks|
  {
    if ws == [] then ks == []
    else match ws[0]
      case Star => ks != [] && WordMatch(ws[1..], ks[1..])
      case Lit(w) => ks != [] && ks[0] == w && WordMatch(ws[1..], ks[1..])
      case Hash => WordMatch(ws[1..], ks) || (ks != [] && WordMatch(ws, ks[1..]))
  }

  // ---------------------------------------------------------------- the expression

  ghost predicate NoNewline(s: string) {
    forall c :: c in s ==> c != '\n'
  }

  /** .*\.? */
  ghost predicate InGroup(s: string) {
    exists n :: 0 <= n <= |s| && NoNewline(s[..n]) && (s[n..] == "" || s[n..] == ".")
  }

  /** (.*\.?)+ */
  ghost predicate InPlus(s: string)
    decreases |s|
  {
    InGroup(s) || exists n :: 0 < n < |s| && InGroup(s[..n]) && InPlus(s[n..])
  }

  lemma {:induction false} GroupIff(s: string)
    ensures InGroup(s) <==> NoNewline(s)
  {
    if n :| 0 <= n <= |s| && NoNewline(s[..n]) && (s[n..] == "" || s[n..] == ".") {
      assert s == s[..n] + s[n..];
    }
    if NoNewline(s) { assert s[..|s|] == s && s[|s|..] == ""; }
  }

  /** The group stands for any string without a line break. */
  lemma {:induction false} PlusIff(s: string)
    ensures InPlus(s) <==> NoNewline(s)
    decreases |s|
  {
    GroupIff(s);
    if n :| 0 < n < |s| && InGroup(s[..n]) && InPlus(s[n..]) {
      GroupIff(s[..n]);
      PlusIff(s[n..]);
      assert s == s[..n] + s[n..];
    }
  }

  ghost predicate Takes(t: Tok, s: string) {
    match t
    case Sep => s == "."
    case One => s != "" && '.' !in s
    case Any => InPlus(s)
    case Text(w) => s == w
    case Mark => s == "#"
    case Stray => false
  }

  /** The whole of the string is consumed, piece by piece. */
  ghost predicate Matches(ts: seq<Tok>, k: string) {
    if ts == [] then k == "" else
    exists n :: 0 <= n <= |k| && Takes(ts[0], k[..n]) && Matches(ts[1..], k[n..])
  }

  lemma {:induction false} First(t: Tok, a: string, ts: seq<Tok>, b: string)
    requires Takes(t, a) && Matches(ts, b)
    ensures Matches([t] + ts, a + b)
  {
    assert ([t] + ts)[1..] == ts && (a + b)[..|a|] == a && (a + b)[|a|..] == b;
  }

  lemma {:induction false} Unfirst(t: Tok, ts: seq<Tok>, k: string) returns (n: nat)
    requires Matches([t] + ts, k)
    ensures n <= |k| && Takes(t, k[..n]) && Matches(ts, k[n..])
  {
    var all := [t] + ts;
    assert all[1..] == ts && all[0] == t;
    n :| 0 <= n <= |k| && Takes(all[0], k[..n]) && Matches(all[1..], k[n..]);
  }

  lemma {:induction false} AnyTakes(s: string)
    requires NoNewline(s)
    ensures Takes(Any, s)
  {
    PlusIff(s);
  }

  // ---------------------------------------------------------------- what buildRegexp builds

  function Tok1(w: Word): Tok {
    match w
    case Star => One
    case Hash => Mark
    case Lit(s) => Text(s)
  }

  /** How many # the list starts with. */
  function Hashes(ws: seq<Word>): (r: nat)
    ensures r <= |ws| && (r < |ws| ==> ws[r] != Hash)
    ensures forall i :: 0 <= i < r ==> ws[i] == Hash
  {
    if ws == [] || ws[0] != Hash then 0 else 1 + Hashes(ws[1..])
  }

  function Anys(r: nat): seq<Tok> {
    if r == 0 then [] else [Any] + Anys(r - 1)
  }

  /** Between two words with r # between them. An odd run swallows both of its outer dots. */
  function Gap(r: nat): seq<Tok> {
    Anys(r) + if r % 2 == 0 then [Sep] else []
  }

  /** What follows a word. */
  function After(ws: seq<Word>): seq<Tok> {
    var r := Hashes(ws);
    if r == |ws| then (if r == 0 then [] else [Any])
    else Gap(r) + ([Tok1(ws[r])] + After(ws[r + 1..]))
  }

  function From(ws: seq<Word>): seq<Tok>
    requires ws != []
  {
    [Tok1(ws[0])] + After(ws[1..])
  }

  function Compiled(ws: seq<Word>): seq<Tok>
    requires ws != []
  {
    var r := Hashes(ws);
    if r == |ws| then (if r == 1 then [Any] else [Any, Any])
    else (if r > 0 then [Any] else []) + From(ws[r..])
  }

  // ---------------------------------------------------------------- never misses

  lemma {:induction false} TailNoNewline(ks: seq<string>)
    requires KeyOk(ks)
    ensures NoNewline(Tail(ks)) && NoNewline(Join(ks))
  {
    if ks != [] { TailNoNewline(ks[1..]); }
  }

  lemma {:induction false} TailConcat(a: seq<string>, b: seq<string>)
    ensures Tail(a + b) == Tail(a) + Tail(b)
  {
    if a == [] {
      assert a + b == b && "" + Tail(b) == Tail(b);
    } else {
      TailConcat(a[1..], b);
      assert (a + b)[1..] == a[1..] + b;
      Seqs.Assoc("." + a[0], Tail(a[1..]), Tail(b));
    }
  }

  lemma {:induction false} JoinConcat(a: seq<string>, b: seq<string>)
    requires a != []
    ensures Join(a + b) == Join(a) + Tail(b)
  {
    TailConcat(a[1..], b);
    assert (a + b)[1..] == a[1..] + b;
    Seqs.Assoc(a[0], Tail(a[1..]), Tail(b));
  }

  /** A run of # takes some words, and a run of none takes none. */
  lemma {:induction false} Absorbed(ws: seq<Word>, ks: seq<string>) returns (j: nat)
    requires WordMatch(ws, ks)
    ensures j <= |ks| && WordMatch(ws[Hashes(ws)..], ks[j..]) && (Hashes(ws) == 0 ==> j == 0)
    decreases |ws| + |ks|
  {
    j := 0;
    if ws != [] && ws[0] == Hash {
      if WordMatch(ws[1..], ks) {
        j := Absorbed(ws[1..], ks);
        assert ws[1..][Hashes(ws[1..])..] == ws[Hashes(ws)..];
      } else {
        j := Absorbed(ws, ks[1..]);
        assert ks[1..][j..] == ks[j + 1..];
        j := j + 1;
      }
    }
  }

  lemma {:induction false} AnyNothing(ts: seq<Tok>, k: string)
    requires Matches(ts, k)
    ensures Matches([Any] + ts, k)
  {
    AnyTakes("");
    First(Any, "", ts, k);
    assert "" + k == k;
  }

  /** r anythings take any one string, when r > 0. */
  lemma {:induction false} AnysTake(r: nat, s: string, ts: seq<Tok>, k: string)
    requires NoNewline(s) && (r == 0 ==> s == "") && Matches(ts, k)
    ensures Matches(Anys(r) + ts, s + k)
  {
    if r == 0 {
      assert Anys(0) + ts == ts && s + k == k;
    } else if r == 1 {
      assert Anys(1) == [Any];
      AnyTakes(s);
      First(Any, s, ts, k);
    } else {
      AnysTake(r - 1, s, ts, k);
      AnyNothing(Anys(r - 1) + ts, s + k);
      Seqs.Assoc([Any], Anys(r - 1), ts);
    }
  }

  lemma {:induction false} WordTakes(w: Word, s: string)
    requires w != Hash && KeyWord(s) && (w.Lit? ==> s == w.text)
    ensures Takes(Tok1(w), s)
  {
  }

  lemma {:induction false} EvenGap(r: nat, t: string, ts: seq<Tok>, k: string)
    requires r % 2 == 0 && NoNewline(t) && (r == 0 ==> t == "") && Matches(ts, k)
    ensures Matches(Gap(r) + ts, t + ("." + k))
  {
    First(Sep, ".", ts, k);
    AnysTake(r, t, [Sep] + ts, "." + k);
    assert Gap(r) + ts == Anys(r) + ([Sep] + ts);
  }

  lemma {:induction false} OddGap(r: nat, t: string, ts: seq<Tok>, k: string)
    requires r % 2 == 1 && NoNewline(t) && Matches(ts, k)
    ensures Matches(Gap(r) + ts, t + k)
  {
    AnysTake(r, t, ts, k);
    assert Gap(r) == Anys(r);
  }

  /** A gap takes what lies before the next word. */
  lemma {:induction false} GapTakes(r: nat, t: string, ts: seq<Tok>, k: string)
    requires NoNewline(t) && (r == 0 ==> t == "") && Matches(ts, k)
    ensures Matches(Gap(r) + ts, t + ("." + k))
  {
    if r % 2 == 0 {
      EvenGap(r, t, ts, k);
    } else {
      OddGap(r, t + ".", ts, k);
      assert t + "." + k == t + ("." + k);
    }
  }

  lemma {:induction false} GapThenWord(r: nat, w: Word, t: string, s: string, ts: seq<Tok>, k: string)
    requires NoNewline(t) && (r == 0 ==> t == "") && Matches(ts, k)
    requires w != Hash && KeyWord(s) && (w.Lit? ==> s == w.text)
    ensures Matches(Gap(r) + ([Tok1(w)] + ts), t + ("." + (s + k)))
  {
    WordTakes(w, s);
    First(Tok1(w), s, ts, k);
    GapTakes(r, t, [Tok1(w)] + ts, s + k);
  }

  lemma {:induction false} TailSplit(ks: seq<string>, j: nat)
    requires j < |ks|
    ensures Tail(ks) == Tail(ks[..j]) + ("." + (ks[j] + Tail(ks[j + 1..])))
  {
    TailConcat(ks[..j], ks[j..]);
    assert ks == ks[..j] + ks[j..];
    var us := ks[j..];
    assert us[0] == ks[j] && us[1..] == ks[j + 1..];
    assert "." + us[0] + Tail(us[1..]) == "." + (us[0] + Tail(us[1..]));
  }

  /** One turn: j words for the run of r, then the word after it. */
  lemma {:induction false} AfterStep(ws: seq<Word>, ks: seq<string>, j: nat)
    requires KeyOk(ks) && Hashes(ws) < |ws| && j < |ks| && (Hashes(ws) == 0 ==> j == 0)
    requires ws[Hashes(ws)].Lit? ==> ks[j] == ws[Hashes(ws)].text
    requires Matches(After(ws[Hashes(ws) + 1..]), Tail(ks[j + 1..]))
    ensures Matches(After(ws), Tail(ks))
  {
    var r := Hashes(ws);
    TailNoNewline(ks[..j]);
    GapThenWord(r, ws[r], Tail(ks[..j]), ks[j], After(ws[r + 1..]), Tail(ks[j + 1..]));
    TailSplit(ks, j);
  }

  lemma {:induction false} AfterAccepts(ws: seq<Word>, ks: seq<string>)
    requires LitsOk(ws) && KeyOk(ks) && WordMatch(ws, ks)
    ensures Matches(After(ws), Tail(ks))
    decreases |ws|
  {
    var r := Hashes(ws);
    if r == |ws| {
      if r == 0 {
      } else {
        TailNoNewline(ks);
        AnyTakes(Tail(ks));
        First(Any, Tail(ks), [], "");
        assert [Any] + [] == [Any] && Tail(ks) + "" == Tail(ks);
      }
    } else {
      var j := Absorbed(ws, ks);
      var us := ws[r..];
      assert us[0] == ws[r] && us[1..] == ws[r + 1..];
      assert ks[j..][0] == ks[j] && ks[j..][1..] == ks[j + 1..];
      AfterAccepts(ws[r + 1..], ks[j + 1..]);
      AfterStep(ws, ks, j);
    }
  }

  lemma {:induction false} FromAccepts(ws: seq<Word>, ks: seq<string>)
    requires ws != [] && ws[0] != Hash && LitsOk(ws) && KeyOk(ks) && WordMatch(ws, ks)
    ensures ks != [] && Matches(From(ws), Join(ks))
  {
    AfterAccepts(ws[1..], ks[1..]);
    WordTakes(ws[0], ks[0]);
    First(Tok1(ws[0]), ks[0], After(ws[1..]), Tail(ks[1..]));
  }

  lemma {:induction false} OnlyHashes(ws: seq<Word>, ks: seq<string>)
    requires ws != [] && Hashes(ws) == |ws| && KeyOk(ks)
    ensures Matches(Compiled(ws), Join(ks))
  {
    TailNoNewline(ks);
    AnysTake(1, Join(ks), [], "");
    AnysTake(2, Join(ks), [], "");
    assert Anys(1) + [] == [Any] && Anys(2) == [Any] + Anys(1) && Anys(2) + [] == [Any, Any];
    assert Join(ks) + "" == Join(ks);
  }

  /** The key is what a leading run takes, followed by the rest. */
  lemma {:induction false} JoinSplit(ks: seq<string>, j: nat) returns (p: string)
    requires KeyOk(ks) && j < |ks|
    ensures NoNewline(p) && Join(ks) == p + Join(ks[j..]) && (j == 0 ==> p == "")
  {
    if j == 0 {
      p := "";
      assert ks[0..] == ks;
    } else {
      p := Join(ks[..j]) + ".";
      TailNoNewline(ks[..j]);
      JoinConcat(ks[..j], ks[j..]);
      assert ks == ks[..j] + ks[j..];
    }
  }

  /** Topic routing never misses: every key the word-level rule accepts is accepted by the expression. */
  lemma {:induction false} NeverMisses(ws: seq<Word>, ks: seq<string>)
    requires PatternOk(ws) && KeyOk(ks) && WordMatch(ws, ks)
    ensures Matches(Compiled(ws), Join(ks))
  {
    var r := Hashes(ws);
    if r == |ws| {
      OnlyHashes(ws, ks);
    } else {
      var j := Absorbed(ws, ks);
      FromAccepts(ws[r..], ks[j..]);
      var p := JoinSplit(ks, j);
      if r > 0 {
        AnyTakes(p);
        First(Any, p, From(ws[r..]), Join(ks[j..]));
      } else {
        assert [] + From(ws[r..]) == From(ws[r..]) && "" + Join(ks[j..]) == Join(ks[j..]);
      }
    }
  }
}
