/**
 The rewriting of buildRegexp (binding/binding.go) on the pieces of the expression: its
 loops end, and with the replacements after them they build exactly Topic.Compiled.
 Module TopicText does the same on the characters.
 */
module TopicCompiler {
  import opened Topic
  import Seqs

  /** Every part after the first, each behind its escaped dot. */
  function Dotted(ws: seq<Word>): seq<Tok> {
    if ws == [] then [] else [Sep, Tok1(ws[0])] + Dotted(ws[1..])
  }

  /** The parts joined by escaped dots, with * already replaced. */
  function Joined(ws: seq<Word>): seq<Tok>
    requires ws != []
  {
    [Tok1(ws[0])] + Dotted(ws[1..])
  }

  /** strings.Replace of the escaped .#. from left to right. */
  function ReplaceInner(ts: seq<Tok>): seq<Tok> {
    if ts == [] then []
    else if |ts| >= 3 && ts[..3] == [Sep, Mark, Sep] then [Any] + ReplaceInner(ts[3..])
    else [ts[0]] + ReplaceInner(ts[1..])
  }

  /** strings.Replace of what # is left. */
  function ReplaceMarks(ts: seq<Tok>): seq<Tok> {
    if ts == [] then [] else [if ts[0] == Mark then Any else ts[0]] + ReplaceMarks(ts[1..])
  }

  function Rewritten(ts: seq<Tok>): seq<Tok> {
    ReplaceMarks(ReplaceInner(ts))
  }

  /** The rewriting of a piece that is not a dot leaves what follows to itself. */
  lemma {:induction false} RewriteHead(t: Tok, ts: seq<Tok>)
    requires t != Sep
    ensures Rewritten([t] + ts) == [if t == Mark then Any else t] + Rewritten(ts)
  {
    var all := [t] + ts;
    assert all[1..] == ts && all[0] == t;
    if |all| >= 3 { assert all[..3][0] == t; }
    assert ReplaceInner(all) == [t] + ReplaceInner(ts);
    assert ([t] + ReplaceInner(ts))[1..] == ReplaceInner(ts);
  }

  /** A dot before a word stays. */
  lemma {:induction false} RewriteDot(t: Tok, ts: seq<Tok>)
    requires t != Mark
    ensures Rewritten([Sep] + ([t] + ts)) == [Sep] + Rewritten([t] + ts)
  {
    var all := [Sep] + ([t] + ts);
    assert all[1..] == [t] + ts && all[1] == t;
    if |all| >= 3 { assert all[..3][1] == t; }
    assert ReplaceInner(all) == [Sep] + ReplaceInner([t] + ts);
    assert ([Sep] + ReplaceInner([t] + ts))[1..] == ReplaceInner([t] + ts);
  }

  /** A # with a dot on either side takes both. */
  lemma {:induction false} RewriteInner(ts: seq<Tok>)
    ensures Rewritten([Sep, Mark, Sep] + ts) == [Any] + Rewritten(ts)
  {
    var all := [Sep, Mark, Sep] + ts;
    assert all[..3] == [Sep, Mark, Sep] && all[3..] == ts;
    assert ReplaceInner(all) == [Any] + ReplaceInner(ts);
    assert ([Any] + ReplaceInner(ts))[1..] == ReplaceInner(ts);
  }

  /** Two # in a row and their dots become two anythings and leave the dot after them in place. */
  lemma {:induction false} RewritePair(ts: seq<Tok>)
    ensures Rewritten([Sep, Mark, Sep, Mark, Sep] + ts) == [Any, Any] + Rewritten([Sep] + ts)
  {
    assert [Sep, Mark, Sep, Mark, Sep] + ts == [Sep, Mark, Sep] + ([Mark] + ([Sep] + ts));
    RewriteInner([Mark] + ([Sep] + ts));
    RewriteHead(Mark, [Sep] + ts);
    assert [Any] + ([Any] + Rewritten([Sep] + ts)) == [Any, Any] + Rewritten([Sep] + ts);
  }

  /** A run of # between words, with its dots. */
  function Run(r: nat): seq<Tok> {
    if r == 0 then [] else [Sep, Mark] + Run(r - 1)
  }

  lemma {:induction false} RewriteOne(ts: seq<Tok>)
    ensures Rewritten(Run(1) + ([Sep] + ts)) == Gap(1) + Rewritten(ts)
  {
    assert Run(0) == [] && Run(1) == [Sep, Mark];
    assert Run(1) + ([Sep] + ts) == [Sep, Mark, Sep] + ts;
    assert Anys(0) == [] && Anys(1) == [Any] && Gap(1) == [Any];
    RewriteInner(ts);
  }

  lemma {:induction false} RewriteNone(t: Tok, ts: seq<Tok>)
    requires t != Mark
    ensures Rewritten(Run(0) + ([Sep] + ([t] + ts))) == Gap(0) + Rewritten([t] + ts)
  {
    assert Run(0) + ([Sep] + ([t] + ts)) == [Sep] + ([t] + ts) && Gap(0) == [Sep];
    RewriteDot(t, ts);
  }

  /** A run and the dot after it become its gap. */
  lemma {:induction false} RewriteRun(r: nat, t: Tok, ts: seq<Tok>)
    requires t != Mark && t != Sep
    ensures Rewritten(Run(r) + ([Sep] + ([t] + ts))) == Gap(r) + Rewritten([t] + ts)
  {
    var tail := [Sep] + ([t] + ts);
    if r == 0 {
      RewriteNone(t, ts);
    } else if r == 1 {
      RewriteOne([t] + ts);
    } else {
      RewriteRun(r - 2, t, ts);
      RewriteTwo(r, tail);
      GapOfTwo(r);
      Seqs.Assoc([Any, Any], Gap(r - 2), Rewritten([t] + ts));
    }
  }

  lemma {:induction false} RewriteTwo(r: nat, tail: seq<Tok>)
    requires r >= 2 && tail != [] && tail[0] == Sep
    ensures Rewritten(Run(r) + tail) == [Any, Any] + Rewritten(Run(r - 2) + tail)
  {
    var rest := Run(r - 2) + tail;
    assert rest[0] == Sep by { if r > 2 { assert Run(r - 2)[0] == Sep; } }
    assert Run(r) == [Sep, Mark] + ([Sep, Mark] + Run(r - 2));
    assert Run(r) + tail == [Sep, Mark, Sep, Mark, Sep] + rest[1..];
    RewritePair(rest[1..]);
    assert [Sep] + rest[1..] == rest;
  }

  lemma {:induction false} GapOfTwo(r: nat)
    requires r >= 2
    ensures Gap(r) == [Any, Any] + Gap(r - 2)
  {
    assert Anys(r) == [Any] + ([Any] + Anys(r - 2));
  }

  lemma {:induction false} DottedRun(ws: seq<Word>)
    ensures Dotted(ws) == Run(Hashes(ws)) + Dotted(ws[Hashes(ws)..])
  {
    if ws != [] && ws[0] == Hash {
      DottedRun(ws[1..]);
      assert ws[1..][Hashes(ws[1..])..] == ws[Hashes(ws)..];
      var rest := Dotted(ws[Hashes(ws)..]);
      assert [Sep, Mark] + (Run(Hashes(ws[1..])) + rest) == Run(Hashes(ws)) + rest;
    } else {
      assert ws[0..] == ws && [] + Dotted(ws) == Dotted(ws);
    }
  }

  /** The list without the # it ends in. */
  function Trimmed(ws: seq<Word>): seq<Word> {
    if ws != [] && ws[|ws| - 1] == Hash then Trimmed(ws[..|ws| - 1]) else ws
  }

  /** What follows a word, with a trailing run already replaced. */
  function Ended(ws: seq<Word>): seq<Tok> {
    Dotted(Trimmed(ws)) + if Trimmed(ws) == ws then [] else [Any]
  }

  lemma {:induction false} TrimmedFront(ws: seq<Word>, n: nat)
    requires n < |ws| && ws[n] != Hash
    ensures |Trimmed(ws)| > n && Trimmed(ws)[..n + 1] == ws[..n + 1]
    ensures Trimmed(ws)[n + 1..] == Trimmed(ws[n + 1..])
    ensures Trimmed(ws) == ws <==> Trimmed(ws[n + 1..]) == ws[n + 1..]
  {
    if ws[|ws| - 1] == Hash {
      var front := ws[..|ws| - 1];
      TrimmedFront(front, n);
      assert front[n + 1..] == ws[n + 1..][..|ws[n + 1..]| - 1];
      TrimmedShorter(front);
      TrimmedShorter(front[n + 1..]);
    }
  }

  lemma {:induction false} TrimmedShorter(ws: seq<Word>)
    ensures |Trimmed(ws)| <= |ws| && Trimmed(ws) == ws[..|Trimmed(ws)|]
  {
    if ws != [] && ws[|ws| - 1] == Hash { TrimmedShorter(ws[..|ws| - 1]); }
  }

  lemma {:induction false} TrimmedAll(ws: seq<Word>)
    requires Hashes(ws) == |ws|
    ensures Trimmed(ws) == []
  {
    if ws != [] {
      var front := ws[..|ws| - 1];
      AllHash(front);
      TrimmedAll(front);
    }
  }

  lemma {:induction false} AllHash(ws: seq<Word>)
    requires forall i :: 0 <= i < |ws| ==> ws[i] == Hash
    ensures Hashes(ws) == |ws|
  {
    if ws != [] { AllHash(ws[1..]); }
  }

  /** The two replacements turn the dotted parts after a word into what Compiled has there. */
  lemma {:induction false} RewriteEnded(ws: seq<Word>)
    ensures Rewritten(Ended(ws)) == After(ws)
    decreases |ws|
  {
    var r := Hashes(ws);
    if r == |ws| {
      TrimmedAll(ws);
      if r > 0 {
        assert Ended(ws) == [Any] + [];
        RewriteHead(Any, []);
        assert Rewritten([]) == [];
      } else {
        assert Ended(ws) == [];
      }
    } else {
      var t := Tok1(ws[r]);
      EndedSplit(ws);
      RewriteRun(r, t, Ended(ws[r + 1..]));
      RewriteHead(t, Ended(ws[r + 1..]));
      RewriteEnded(ws[r + 1..]);
    }
  }

  lemma {:induction false} EndedSplit(ws: seq<Word>)
    requires Hashes(ws) < |ws|
    ensures var r := Hashes(ws);
            Ended(ws) == Run(r) + ([Sep] + ([Tok1(ws[r])] + Ended(ws[r + 1..])))
  {
    var r := Hashes(ws);
    var cut := Trimmed(ws);
    TrimmedFront(ws, r);
    SameRun(ws, cut);
    DottedRun(cut);
    var us := cut[r..];
    assert us[0] == ws[r] by { assert cut[..r + 1][r] == ws[..r + 1][r]; }
    assert us[1..] == cut[r + 1..];
    assert Dotted(us) == [Sep, Tok1(ws[r])] + Dotted(cut[r + 1..]);
    Regroup(Run(r), Tok1(ws[r]), Dotted(cut[r + 1..]), if cut == ws then [] else [Any]);
  }

  lemma {:induction false} Regroup(a: seq<Tok>, t: Tok, b: seq<Tok>, c: seq<Tok>)
    ensures a + ([Sep, t] + b) + c == a + ([Sep] + ([t] + (b + c)))
  {
  }

  lemma {:induction false} SameRun(ws: seq<Word>, cut: seq<Word>)
    requires Hashes(ws) < |ws| && Hashes(ws) < |cut| && cut[..Hashes(ws) + 1] == ws[..Hashes(ws) + 1]
    ensures Hashes(cut) == Hashes(ws)
  {
    var r := Hashes(ws);
    forall i | 0 <= i <= r ensures cut[i] == ws[i] {
      assert cut[i] == cut[..r + 1][i] && ws[i] == ws[..r + 1][i];
    }
  }

  // ---------------------------------------------------------------- the loops

  predicate HasPrefix(ts: seq<Tok>) {
    |ts| >= 2 && ts[0] == Mark && ts[1] == Sep
  }

  predicate HasSuffix(ts: seq<Tok>) {
    |ts| >= 2 && ts[|ts| - 2] == Sep && ts[|ts| - 1] == Mark
  }

  lemma {:induction false} PrefixOfJoined(ws: seq<Word>)
    requires ws != []
    ensures HasPrefix(Joined(ws)) <==> ws[0] == Hash && |ws| > 1
    ensures |ws| > 1 ==> Joined(ws)[2..] == Joined(ws[1..])
  {
    if |ws| > 1 { assert Joined(ws)[2..] == [Tok1(ws[1])] + Dotted(ws[1..][1..]); }
  }

  /** How many leading # the first loop strips: all, unless there is nothing else. */
  function Stripped(ws: seq<Word>): (k: nat)
    requires ws != []
    ensures k < |ws|
  {
    if Hashes(ws) == |ws| then |ws| - 1 else Hashes(ws)
  }

  /** The loop over the leading #: strip, and put one group in front when there is no more to strip. */
  function LeadLoop(ts: seq<Tok>): seq<Tok>
    decreases |ts|
  {
    if !HasPrefix(ts) then ts
    else if HasPrefix(ts[2..]) then LeadLoop(ts[2..])
    else LeadLoop([Any] + ts[2..])
  }

  function Lead(ws: seq<Word>): seq<Tok>
    requires ws != []
  {
    if Stripped(ws) > 0 then [Any] else []
  }

  lemma {:induction false} StrippedTail(ws: seq<Word>)
    requires |ws| > 1 && ws[0] == Hash
    ensures Stripped(ws) == Stripped(ws[1..]) + 1 && ws[1..][Stripped(ws[1..])..] == ws[Stripped(ws)..]
    ensures Stripped(ws[1..]) > 0 <==> HasPrefix(Joined(ws[1..]))
  {
    PrefixOfJoined(ws[1..]);
  }

  lemma {:induction false} LeadLoopStrips(ws: seq<Word>)
    requires ws != []
    ensures LeadLoop(Joined(ws)) == Lead(ws) + Joined(ws[Stripped(ws)..])
  {
    PrefixOfJoined(ws);
    if HasPrefix(Joined(ws)) {
      StrippedTail(ws);
      if HasPrefix(Joined(ws[1..])) {
        LeadLoopStrips(ws[1..]);
      } else {
        assert !HasPrefix([Any] + Joined(ws[1..]));
        assert ws[1..][0..] == ws[1..];
      }
    } else {
      assert ws[0..] == ws && [] + Joined(ws) == Joined(ws);
    }
  }

  lemma {:induction false} DottedSnoc(ws: seq<Word>, w: Word)
    ensures Dotted(ws + [w]) == Dotted(ws) + [Sep, Tok1(w)]
  {
    if ws == [] {
      assert ws + [w] == [w] && [w][1..] == [];
    } else {
      DottedSnoc(ws[1..], w);
      assert (ws + [w])[1..] == ws[1..] + [w];
    }
  }

  lemma {:induction false} SuffixOfJoined(pre: seq<Tok>, ws: seq<Word>)
    requires ws != [] && (pre == [] || pre == [Any])
    ensures HasSuffix(pre + Joined(ws)) <==> |ws| > 1 && ws[|ws| - 1] == Hash
    ensures |ws| > 1 ==> (pre + Joined(ws))[..|pre + Joined(ws)| - 2] == pre + Joined(ws[..|ws| - 1])
  {
    if |ws| > 1 {
      var us, w := ws[1..|ws| - 1], ws[|ws| - 1];
      assert ws[1..] == us + [w] && ws[..|ws| - 1][1..] == us;
      DottedSnoc(us, w);
      assert pre + Joined(ws) == pre + Joined(ws[..|ws| - 1]) + [Sep, Tok1(w)];
    }
  }

  lemma {:induction false} TrimmedIs(ws: seq<Word>, n: nat)
    requires n <= |ws| && (forall i :: n <= i < |ws| ==> ws[i] == Hash) && (n == 0 || ws[n - 1] != Hash)
    ensures Trimmed(ws) == ws[..n]
  {
    if n < |ws| {
      TrimmedIs(ws[..|ws| - 1], n);
      assert ws[..|ws| - 1][..n] == ws[..n];
    } else {
      assert ws[..n] == ws;
    }
  }

  /** The loop over the trailing #. */
  function TrailLoop(ts: seq<Tok>): seq<Tok>
    decreases |ts|
  {
    if !HasSuffix(ts) then ts
    else if HasSuffix(ts[..|ts| - 2]) then TrailLoop(ts[..|ts| - 2])
    else TrailLoop(ts[..|ts| - 2] + [Any])
  }

  /** The list without its last words, as many as are #, but never without the first. */
  function Kept(ws: seq<Word>): (n: nat)
    requires ws != []
    ensures 1 <= n <= |ws| && (n == 1 || ws[n - 1] != Hash) && forall i :: n <= i < |ws| ==> ws[i] == Hash
    decreases |ws|
  {
    if |ws| > 1 && ws[|ws| - 1] == Hash then Kept(ws[..|ws| - 1]) else |ws|
  }

  lemma {:induction false} TrailLoopKeeps(pre: seq<Tok>, ws: seq<Word>)
    requires ws != [] && (pre == [] || pre == [Any])
    ensures TrailLoop(pre + Joined(ws)) == pre + Joined(ws[..Kept(ws)]) + if Kept(ws) < |ws| then [Any] else []
    decreases |ws|
  {
    var ts := pre + Joined(ws);
    SuffixOfJoined(pre, ws);
    if HasSuffix(ts) {
      var front := ws[..|ws| - 1];
      SuffixOfJoined(pre, front);
      assert ws[..Kept(ws)] == front[..Kept(front)];
      if HasSuffix(pre + Joined(front)) {
        TrailLoopKeeps(pre, front);
      } else {
        assert Kept(front) == |front| && front[..|front|] == front;
        assert !HasSuffix(pre + Joined(front) + [Any]);
      }
    } else {
      assert ws[..|ws|] == ws && ts + [] == ts;
    }
  }

  lemma {:induction false} TrailLoopEnds(pre: seq<Tok>, ws: seq<Word>)
    requires ws != [] && (pre == [] || pre == [Any])
    ensures TrailLoop(pre + Joined(ws)) == pre + ([Tok1(ws[0])] + Ended(ws[1..]))
  {
    TrailLoopKeeps(pre, ws);
    EndedIs(pre, ws, Kept(ws));
  }

  lemma {:induction false} EndedIs(pre: seq<Tok>, ws: seq<Word>, n: nat)
    requires 1 <= n <= |ws| && (forall i :: n <= i < |ws| ==> ws[i] == Hash) && (n == 1 || ws[n - 1] != Hash)
    ensures pre + Joined(ws[..n]) + (if n < |ws| then [Any] else []) == pre + ([Tok1(ws[0])] + Ended(ws[1..]))
  {
    TrimmedIs(ws[1..], n - 1);
    assert ws[..n][1..] == ws[1..][..n - 1];
    assert n == |ws| ==> ws[1..][..n - 1] == ws[1..];
  }

  /** Both loops and the two replacements turn the joined pattern into what Compiled says. */
  lemma {:induction false} LoopsCompile(ws: seq<Word>)
    requires ws != []
    ensures Rewritten(TrailLoop(LeadLoop(Joined(ws)))) == Compiled(ws)
  {
    LeadLoopStrips(ws);
    TrailLoopEnds(Lead(ws), ws[Stripped(ws)..]);
    assert ws[Stripped(ws)..][1..] == ws[Stripped(ws) + 1..];
    FinallyCompiled(ws);
  }

  lemma {:induction false} RewritePre(pre: seq<Tok>, ts: seq<Tok>)
    requires pre == [] || pre == [Any]
    ensures Rewritten(pre + ts) == pre + Rewritten(ts)
  {
    if pre == [] {
      assert pre + ts == ts && pre + Rewritten(ts) == Rewritten(ts);
    } else {
      RewriteHead(Any, ts);
    }
  }

  lemma {:induction false} FinallyCompiled(ws: seq<Word>)
    requires ws != []
    ensures var k := Stripped(ws);
            var pre := if k > 0 then [Any] else [];
            Rewritten(pre + ([Tok1(ws[k])] + Ended(ws[k + 1..]))) == Compiled(ws)
  {
    var k := Stripped(ws);
    var pre := if k > 0 then [Any] else [];
    RewritePre(pre, [Tok1(ws[k])] + Ended(ws[k + 1..]));
    RewriteHead(Tok1(ws[k]), Ended(ws[k + 1..]));
    RewriteEnded(ws[k + 1..]);
    assert ws[k..][1..] == ws[k + 1..];
    if Hashes(ws) == |ws| { assert ws[k + 1..] == []; }
  }
}
