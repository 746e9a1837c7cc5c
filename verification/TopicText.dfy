/**
 buildRegexp (binding/binding.go) on the characters of the routing key: splitting,
 escaping, joining and rewriting give the text of the pieces that Topic.Compiled lists.
 */
module TopicText {
  import opened Topic
  import opened TopicCompiler
  import Seqs

  // ---------------------------------------------------------------- library functions of Go

  /** strings.Replace of every occurrence, from left to right. */
  function Replace(s: string, old': string, new': string): string
    requires old' != ""
  {
    if s == "" then ""
    else if old' <= s then new' + Replace(s[|old'|..], old', new')
    else [s[0]] + Replace(s[1..], old', new')
  }

  function QuoteChar(c: char): string {
    if c in "\\.+*?()|[]{}^$" then ['\\', c] else [c]
  }

  /** regexp.QuoteMeta */
  function QuoteMeta(s: string): string {
    if s == "" then "" else QuoteChar(s[0]) + QuoteMeta(s[1..])
  }

  /** strings.Split at the dots. */
  function Split(s: string): (parts: seq<string>)
    ensures parts != []
  {
    if s == "" then [""]
    else if s[0] == '.' then [""] + Split(s[1..])
    else var rest := Split(s[1..]); [[s[0]] + rest[0]] + rest[1..]
  }

  function JoinWith(parts: seq<string>, sep: string): string {
    if parts == [] then ""
    else if |parts| == 1 then parts[0]
    else parts[0] + sep + JoinWith(parts[1..], sep)
  }

  predicate HasSuffixText(s: string, suffix: string) {
    |suffix| <= |s| && s[|s| - |suffix|..] == suffix
  }

  // ---------------------------------------------------------------- the text of the pieces

  const DOT := "\\."
  const WORD := "([^\\.]+)"
  const GROUP := "(.*\\.?)+"
  const STRAY := "\\([^\\.]+)"

  function Text1(t: Tok): string {
    match t
    case Sep => DOT
    case One => WORD
    case Any => GROUP
    case Text(w) => QuoteMeta(w)
    case Mark => "#"
    case Stray => STRAY
  }

  function Render(ts: seq<Tok>): string {
    if ts == [] then "" else Text1(ts[0]) + Render(ts[1..])
  }

  predicate PlainText(w: string) {
    w != "" && '.' !in w && '*' !in w && '#' !in w
  }

  predicate Clean(ts: seq<Tok>) {
    forall i :: 0 <= i < |ts| && ts[i].Text? ==> PlainText(ts[i].text)
  }

  lemma {:induction false} RenderFirst(t: Tok, ts: seq<Tok>)
    ensures Render([t] + ts) == Text1(t) + Render(ts)
  {
    assert ([t] + ts)[1..] == ts;
  }

  lemma {:induction false} FirstOfConcat(a: seq<Tok>, b: seq<Tok>)
    requires a != []
    ensures a + b == [a[0]] + (a[1..] + b) && a == [a[0]] + a[1..]
  {
  }

  lemma {:induction false} RenderConcat(a: seq<Tok>, b: seq<Tok>)
    ensures Render(a + b) == Render(a) + Render(b)
  {
    if a == [] {
      assert a + b == b && "" + Render(b) == Render(b);
    } else {
      var rest := a[1..];
      RenderConcat(rest, b);
      RenderFirst(a[0], rest + b);
      RenderFirst(a[0], rest);
      FirstOfConcat(a, b);
      Seqs.Assoc(Text1(a[0]), Render(rest), Render(b));
    }
  }

  /** What escaping a plain text cannot bring about: a dot, a star, a hash, or a backslash alone. */
  ghost predicate Harmless(s: string) {
    s != "" && '.' !in s && '*' !in s && '#' !in s && (s[0] == '\\' ==> |s| >= 2)
  }

  lemma {:induction false} QuotedHarmless(w: string)
    requires PlainText(w)
    ensures Harmless(QuoteMeta(w))
  {
    var q, rest := QuoteChar(w[0]), w[1..];
    assert w[0] in w;
    if rest == "" {
      assert QuoteMeta(w) == q + "";
      assert q + "" == q;
    } else {
      assert '.' !in rest && '*' !in rest && '#' !in rest;
      QuotedHarmless(rest);
    }
  }

  lemma {:induction false} TextHarmless(t: Tok)
    requires t.Text? && PlainText(t.text)
    ensures Harmless(Text1(t))
  {
    QuotedHarmless(t.text);
  }

  // ---------------------------------------------------------------- how a text starts and ends

  lemma {:induction false} CleanTail(ts: seq<Tok>)
    requires Clean(ts) && ts != []
    ensures Clean(ts[1..])
  {
    var us := ts[1..];
    forall i | 0 <= i < |us| && us[i].Text? ensures PlainText(us[i].text) { assert us[i] == ts[i + 1]; }
  }

  lemma {:induction false} HarmlessStart(u: string, rest: string)
    requires Harmless(u)
    ensures !(DOT <= u + rest) && !("#" <= u + rest)
  {
    var s := u + rest;
    assert s[0] == u[0] && u[0] in u;
    if |u| > 1 { assert s[1] == u[1] && u[1] in u; }
  }

  lemma {:induction false} StartOf(ts: seq<Tok>)
    requires Clean(ts)
    ensures DOT <= Render(ts) <==> ts != [] && ts[0] == Sep
    ensures "#" <= Render(ts) <==> ts != [] && ts[0] == Mark
  {
    if ts != [] {
      var u, rest := Text1(ts[0]), Render(ts[1..]);
      if ts[0].Text? {
        TextHarmless(ts[0]);
        HarmlessStart(u, rest);
      } else {
        assert (u + rest)[0] == u[0] && (|u| > 1 ==> (u + rest)[1] == u[1]);
      }
    }
  }

  /** No text of pieces starts with a dot that is not escaped. */
  lemma {:induction false} StartNoDot(ts: seq<Tok>)
    requires Clean(ts)
    ensures Render(ts) != "" ==> Render(ts)[0] != '.'
  {
    if ts != [] {
      var u := Text1(ts[0]);
      if ts[0].Text? {
        TextHarmless(ts[0]);
        assert u[0] in u;
      }
      assert (u + Render(ts[1..]))[0] == u[0];
    }
  }

  lemma HashBefore(rest: string)
    ensures "#\\." <= "#" + rest <==> DOT <= rest
    ensures ("#" + rest)[1..] == rest
  {
    if DOT <= rest { assert rest == DOT + rest[2..]; }
    if "#\\." <= "#" + rest { assert ("#" + rest)[1..3] == DOT; }
  }

  /** The text starts with an unrewritten # and a dot exactly when the pieces do. */
  lemma {:induction false} PrefixIff(ts: seq<Tok>)
    requires Clean(ts)
    ensures "#\\." <= Render(ts) <==> HasPrefix(ts)
    ensures HasPrefix(ts) ==> Render(ts)[3..] == Render(ts[2..])
  {
    StartOf(ts);
    var s := Render(ts);
    if "#" <= s {
      assert s == "#" + Render(ts[1..]);
      CleanTail(ts);
      StartOf(ts[1..]);
      HashBefore(Render(ts[1..]));
      if HasPrefix(ts) {
        assert ts[1..][1..] == ts[2..];
        assert s[1..] == DOT + Render(ts[2..]);
      }
    }
  }

  lemma {:induction false} EndOf(ts: seq<Tok>, t: Tok)
    requires t.Text? ==> PlainText(t.text)
    ensures Render(ts + [t]) == Render(ts) + Text1(t)
    ensures HasSuffixText(Render(ts + [t]), DOT) <==> t == Sep
    ensures HasSuffixText(Render(ts + [t]), "#") <==> t == Mark
  {
    RenderConcat(ts, [t]);
    RenderSingle(t);
    LastChar(t);
    EndOfText(Render(ts), Text1(t), t == Sep, t == Mark);
  }

  lemma {:induction false} RenderSingle(t: Tok)
    ensures Render([t]) == Text1(t)
  {
    assert [t][1..] == [] && Render([t]) == Text1(t) + "" == Text1(t);
  }

  lemma {:induction false} LastChar(t: Tok)
    requires t.Text? ==> PlainText(t.text)
    ensures LastIs(Text1(t), t == Sep, t == Mark)
  {
    var u := Text1(t);
    if t.Text? {
      TextHarmless(t);
      assert u[|u| - 1] in u;
    }
  }

  /** Whether a text ends in a dot or a hash, and that the dot is an escaped one. */
  ghost predicate LastIs(u: string, dot: bool, hash: bool) {
    && u != "" && (u[|u| - 1] == '.' <==> dot) && (u[|u| - 1] == '#' <==> hash)
    && (dot ==> |u| >= 2 && u[|u| - 2] == DOT[0])
  }

  lemma {:induction false} EndOfText(front: string, u: string, dot: bool, hash: bool)
    requires LastIs(u, dot, hash)
    ensures HasSuffixText(front + u, DOT) <==> dot
    ensures HasSuffixText(front + u, "#") <==> hash
  {
    var s := front + u;
    EndsIn(s);
    assert s[|s| - 1] == u[|u| - 1];
    if dot { assert s[|s| - 2] == u[|u| - 2]; }
  }

  /** The two suffixes, by their characters. */
  lemma EndsInDot(s: string)
    ensures HasSuffixText(s, DOT) <==> |s| >= 2 && s[|s| - 2] == DOT[0] && s[|s| - 1] == '.'
  {
    var n := |s|;
    if n >= 2 { TwoLast(s[n - 2..], DOT); }
  }

  lemma TwoLast(a: string, b: string)
    requires |a| == |b| == 2
    ensures a == b <==> a[0] == b[0] && a[1] == b[1]
  {
  }

  lemma EndsInMark(s: string)
    ensures HasSuffixText(s, "#") <==> |s| >= 1 && s[|s| - 1] == '#'
  {
    var n := |s|;
    if n >= 1 { assert s[n - 1..][0] == s[n - 1]; }
  }

  lemma EndsIn(s: string)
    ensures HasSuffixText(s, DOT) <==> |s| >= 2 && s[|s| - 2] == DOT[0] && s[|s| - 1] == '.'
    ensures HasSuffixText(s, "#") <==> |s| >= 1 && s[|s| - 1] == '#'
  {
    EndsInDot(s);
    EndsInMark(s);
  }

  lemma {:induction false} CleanFront(ts: seq<Tok>)
    requires Clean(ts) && ts != []
    ensures Clean(ts[..|ts| - 1]) && ts == ts[..|ts| - 1] + [ts[|ts| - 1]]
  {
  }

  /** The text ends in a dot and an unrewritten # exactly when the pieces do. */
  lemma {:induction false} SuffixIff(ts: seq<Tok>)
    requires Clean(ts)
    ensures HasSuffixText(Render(ts), "\\.#") <==> HasSuffix(ts)
    ensures HasSuffix(ts) ==> Render(ts)[..|Render(ts)| - 3] == Render(ts[..|ts| - 2])
  {
    if ts != [] {
      var front, last := ts[..|ts| - 1], ts[|ts| - 1];
      CleanFront(ts);
      SuffixSnoc(front, last);
      HasSuffixSnoc(front, last);
    }
  }

  lemma HasSuffixSnoc(front: seq<Tok>, last: Tok)
    ensures var ts := front + [last];
            && (HasSuffix(ts) <==> last == Mark && front != [] && front[|front| - 1] == Sep)
            && (front != [] ==> ts[..|ts| - 2] == front[..|front| - 1])
  {
  }

  lemma {:induction false} SuffixSnoc(front: seq<Tok>, last: Tok)
    requires Clean(front) && (last.Text? ==> PlainText(last.text))
    ensures var s := Render(front + [last]);
            && (HasSuffixText(s, "\\.#") <==> last == Mark && front != [] && front[|front| - 1] == Sep)
            && (HasSuffixText(s, "\\.#") ==> s[..|s| - 3] == Render(front[..|front| - 1]))
  {
    EndOf(front, last);
    if last == Mark {
      SuffixAtMark(front);
    } else {
      EndsInHash(Render(front + [last]));
    }
  }

  lemma {:induction false} SuffixAtMark(front: seq<Tok>)
    requires Clean(front)
    ensures HasSuffixText(Render(front) + "#", "\\.#") <==> front != [] && front[|front| - 1] == Sep
    ensures front != [] && front[|front| - 1] == Sep ==>
              var s := Render(front) + "#";
              |s| >= 3 && s[..|s| - 3] == Render(front[..|front| - 1])
  {
    LastThree(Render(front));
    BeforeMark(front);
  }

  lemma {:induction false} EndsInHash(s: string)
    ensures HasSuffixText(s, "\\.#") ==> HasSuffixText(s, "#")
  {
    if HasSuffixText(s, "\\.#") { assert s[|s| - 1..] == s[|s| - 3..][2..]; }
  }

  /** What stands before the last #. */
  lemma {:induction false} BeforeMark(front: seq<Tok>)
    requires Clean(front)
    ensures HasSuffixText(Render(front), DOT) <==> front != [] && front[|front| - 1] == Sep
    ensures front != [] && front[|front| - 1] == Sep ==>
              (Render(front) + "#")[..|Render(front)| - 2] == Render(front[..|front| - 1])
  {
    if front != [] {
      CleanFront(front);
      EndOf(front[..|front| - 1], front[|front| - 1]);
    }
  }

  lemma {:induction false} LastThree(r: string)
    ensures HasSuffixText(r + "#", "\\.#") <==> HasSuffixText(r, DOT)
  {
    if |r| >= 2 { assert (r + "#")[|r| - 2..] == r[|r| - 2..] + "#"; }
    if |r| >= 2 && r[|r| - 2..] + "#" == "\\.#" { assert (r[|r| - 2..] + "#")[..2] == r[|r| - 2..]; }
  }

  // ---------------------------------------------------------------- the replacements

  lemma {:induction false} ReplaceSkips(u: string, rest: string, old': string, new': string)
    requires old' != "" && forall i :: 0 <= i < |u| ==> !(old' <= (u + rest)[i..])
    ensures Replace(u + rest, old', new') == u + Replace(rest, old', new')
  {
    if u == "" {
      assert u + rest == rest && "" + Replace(rest, old', new') == Replace(rest, old', new');
    } else {
      var s, v := u + rest, u[1..];
      assert s[0..] == s && s[1..] == v + rest;
      forall i | 0 <= i < |v| ensures !(old' <= (v + rest)[i..]) { assert (v + rest)[i..] == s[i + 1..]; }
      ReplaceSkips(v, rest, old', new');
      assert [u[0]] + (v + Replace(rest, old', new')) == u + Replace(rest, old', new');
    }
  }

  lemma {:induction false} ReplaceHits(rest: string, old': string, new': string)
    requires old' != ""
    ensures Replace(old' + rest, old', new') == new' + Replace(rest, old', new')
  {
    assert old' <= old' + rest && (old' + rest)[|old'|..] == rest;
  }

  /** A one-character pattern does not occur in a text without that character. */
  lemma {:induction false} ReplaceSkipsChar(u: string, rest: string, c: char, new': string)
    requires c !in u
    ensures Replace(u + rest, [c], new') == u + Replace(rest, [c], new')
  {
    forall i | 0 <= i < |u| ensures !([c] <= (u + rest)[i..]) { assert (u + rest)[i..][0] == u[i]; }
    ReplaceSkips(u, rest, [c], new');
  }

  lemma {:induction false} MarksReplaced(ts: seq<Tok>)
    requires Clean(ts)
    ensures Replace(Render(ts), "#", GROUP) == Render(ReplaceMarks(ts))
  {
    if ts != [] {
      var t, rest := ts[0], ts[1..];
      CleanTail(ts);
      MarksReplaced(rest);
      RenderFirst(if t == Mark then Any else t, ReplaceMarks(rest));
      if t == Mark {
        ReplaceHits(Render(rest), "#", GROUP);
      } else {
        if t.Text? { TextHarmless(t); }
        ReplaceSkipsChar(Text1(t), Render(rest), '#', GROUP);
      }
    }
  }

  /** The text before the stars are replaced. */
  function Raw1(t: Tok): string {
    match t
    case One => "*"
    case Stray => "\\*"
    case _ => Text1(t)
  }

  function Raw(ts: seq<Tok>): string {
    if ts == [] then "" else Raw1(ts[0]) + Raw(ts[1..])
  }

  lemma {:induction false} StrayReplaced(rest: string)
    ensures Replace("\\*" + rest, "*", WORD) == STRAY + Replace(rest, "*", WORD)
  {
    var tail := "*" + rest;
    assert "\\*" + rest == "\\" + tail;
    ReplaceSkipsChar("\\", tail, '*', WORD);
    ReplaceHits(rest, "*", WORD);
    Seqs.Assoc("\\", WORD, Replace(rest, "*", WORD));
    assert "\\" + WORD == STRAY;
  }

  lemma {:induction false} StarsReplaced(ts: seq<Tok>)
    requires Clean(ts) && Any !in ts
    ensures Replace(Raw(ts), "*", WORD) == Render(ts)
  {
    if ts != [] {
      var t, rest := ts[0], ts[1..];
      CleanTail(ts);
      StarsReplaced(rest);
      if t == One {
        ReplaceHits(Raw(rest), "*", WORD);
      } else if t == Stray {
        StrayReplaced(Raw(rest));
      } else {
        if t.Text? { TextHarmless(t); }
        ReplaceSkipsChar(Text1(t), Raw(rest), '*', WORD);
      }
    }
  }

  const INNER := "\\.#\\."

  lemma InnerStarts(s: string)
    ensures INNER <= s ==> |s| > 2 && s[1] == '.' && s[2] == '#'
  {
  }

  /** Nothing but a dot starts an inner #. */
  lemma {:induction false} NoInner(t: Tok, rest: string, i: nat)
    requires t != Sep && (t.Text? ==> PlainText(t.text)) && i < |Text1(t)| && (rest != "" ==> rest[0] != '.')
    ensures !(INNER <= (Text1(t) + rest)[i..])
  {
    var u := Text1(t);
    var s := (u + rest)[i..];
    if t.Text? { TextHarmless(t); }
    assert s[0] == u[i] && u[i] in u;
    InnerStarts(s);
    if i + 1 < |u| { assert s[1] == u[i + 1] && u[i + 1] in u; } else { assert s == [u[i]] + rest; }
    if i + 2 < |u| { assert s[2] == u[i + 2]; }
  }

  lemma {:induction false} InnerAtDot(rest: string)
    ensures INNER <= DOT + rest <==> "#\\." <= rest
  {
    var s := DOT + rest;
    assert s[2..] == rest;
    if INNER <= s { assert s[2..][..3] == INNER[2..]; }
    if "#\\." <= rest { assert s[..5] == DOT + rest[..3]; }
  }

  lemma {:induction false} NoInnerAtDot(ts: seq<Tok>, i: nat)
    requires Clean(ts) && ts != [] && ts[0] == Sep && !(|ts| >= 3 && ts[..3] == [Sep, Mark, Sep]) && i < 2
    ensures !(INNER <= (DOT + Render(ts[1..]))[i..])
  {
    var rest := Render(ts[1..]);
    var s := (DOT + rest)[i..];
    CleanTail(ts);
    PrefixIff(ts[1..]);
    if i == 0 {
      assert s == DOT + rest;
      InnerAtDot(rest);
      if |ts| >= 3 { assert ts[..3] == [ts[0], ts[1], ts[2]]; }
    } else {
      assert s[0] == '.';
    }
  }

  lemma {:induction false} InnerText(ts: seq<Tok>)
    requires |ts| >= 3 && ts[..3] == [Sep, Mark, Sep]
    ensures Render(ts) == INNER + Render(ts[3..])
  {
    assert ts == [Sep] + ([Mark] + ([Sep] + ts[3..]));
    RenderDotted(ts[3..]);
    InnerGrouped(Render(ts[3..]));
  }

  lemma {:induction false} RenderDotted(ts: seq<Tok>)
    ensures Render([Sep] + ([Mark] + ([Sep] + ts))) == DOT + ("#" + (DOT + Render(ts)))
  {
    RenderFirst(Sep, [Mark] + ([Sep] + ts));
    RenderFirst(Mark, [Sep] + ts);
    RenderFirst(Sep, ts);
  }

  lemma InnerGrouped(s: string)
    ensures DOT + ("#" + (DOT + s)) == INNER + s
  {
  }

  lemma {:induction false} InnerReplaced(ts: seq<Tok>)
    requires Clean(ts)
    ensures Replace(Render(ts), INNER, GROUP) == Render(ReplaceInner(ts))
    decreases |ts|
  {
    if |ts| >= 3 && ts[..3] == [Sep, Mark, Sep] {
      CleanDrop(ts, 3);
      InnerReplaced(ts[3..]);
      InnerText(ts);
      ReplaceHits(Render(ts[3..]), INNER, GROUP);
      RenderFirst(Any, ReplaceInner(ts[3..]));
    } else if ts != [] {
      var t, rest := ts[0], Render(ts[1..]);
      CleanTail(ts);
      StartNoDot(ts[1..]);
      InnerReplaced(ts[1..]);
      forall i | 0 <= i < |Text1(t)| ensures !(INNER <= (Text1(t) + rest)[i..]) {
        if t == Sep { NoInnerAtDot(ts, i); } else { NoInner(t, rest, i); }
      }
      ReplaceSkips(Text1(t), rest, INNER, GROUP);
      RenderFirst(t, ReplaceInner(ts[1..]));
    }
  }

  lemma {:induction false} CleanDrop(ts: seq<Tok>, n: nat)
    requires Clean(ts) && n <= |ts|
    ensures Clean(ts[n..])
  {
    var us := ts[n..];
    forall i | 0 <= i < |us| && us[i].Text? ensures PlainText(us[i].text) { assert us[i] == ts[i + n]; }
  }

  // ---------------------------------------------------------------- splitting and joining

  lemma {:induction false} SplitWord(w: string, rest: string)
    requires '.' !in w
    ensures Split(w + ("." + rest)) == [w] + Split(rest) && Split(w) == [w]
  {
    var s := w + ("." + rest);
    if w == "" {
      assert s == "." + rest && s[1..] == rest;
    } else {
      SplitWord(w[1..], rest);
      assert s[0] == w[0] && w[0] in w && s[1..] == w[1..] + ("." + rest);
      assert [w[0]] + w[1..] == w;
      assert ([w[1..]] + Split(rest))[1..] == Split(rest);
      assert Split(s) == [[w[0]] + w[1..]] + Split(rest);
      assert [w[1..]][1..] == [];
    }
  }

  /** The part of a routing key that a word of the pattern stands for. */
  function Source1(w: Word): string {
    match w
    case Star => "*"
    case Hash => "#"
    case Lit(t) => t
  }

  function Sources(ws: seq<Word>): seq<string> {
    seq(|ws|, i requires 0 <= i < |ws| => Source1(ws[i]))
  }

  /** The routing key of a binding with this pattern. */
  function Pattern(ws: seq<Word>): string {
    JoinWith(Sources(ws), ".")
  }

  lemma {:induction false} SplitPattern(ws: seq<Word>)
    requires PatternOk(ws)
    ensures Split(Pattern(ws)) == Sources(ws)
  {
    var first, rest := Source1(ws[0]), ws[1..];
    SourceNoDot(ws[0]);
    if rest == [] {
      SplitWord(first, "");
      assert Sources(ws) == [first];
    } else {
      LitsSuffix(ws, 1);
      SplitPattern(rest);
      PatternFirst(ws);
      SplitWord(first, Pattern(rest));
    }
  }

  lemma {:induction false} SourceNoDot(w: Word)
    requires w.Lit? ==> PatternWord(w.text)
    ensures '.' !in Source1(w)
  {
  }

  lemma {:induction false} PatternFirst(ws: seq<Word>)
    requires |ws| > 1
    ensures Pattern(ws) == Source1(ws[0]) + ("." + Pattern(ws[1..]))
    ensures Sources(ws) == [Source1(ws[0])] + Sources(ws[1..])
  {
    assert Sources(ws)[1..] == Sources(ws[1..]) && Sources(ws)[0] == Source1(ws[0]);
    Seqs.Assoc(Source1(ws[0]), ".", Pattern(ws[1..]));
  }

  // ---------------------------------------------------------------- the pieces of any routing key

  /** The pieces of a part: what stands between stars and hashes, and those. */
  function WordToks(part: string): seq<Tok> {
    if part == "" then []
    else if part[0] == '#' then [Mark] + WordToks(part[1..])
    else if part[0] == '*' then [Stray] + WordToks(part[1..])
    else OntoText(part[0], WordToks(part[1..]))
  }

  function OntoText(c: char, ts: seq<Tok>): seq<Tok> {
    if ts != [] && ts[0].Text? then [Text([c] + ts[0].text)] + ts[1..] else [Text([c])] + ts
  }

  function PartToks(part: string): seq<Tok> {
    if part == "*" then [One] else WordToks(part)
  }

  function DottedParts(parts: seq<string>): seq<Tok> {
    if parts == [] then [] else [Sep] + (PartToks(parts[0]) + DottedParts(parts[1..]))
  }

  /** The pieces of a routing key as the first replacement leaves them. */
  function Pieces(key: string): seq<Tok> {
    PartToks(Split(key)[0]) + DottedParts(Split(key)[1..])
  }

  /** A part after escaping. */
  function Quoted(part: string): string {
    if part == "*" then "*" else if part == "#" then "#" else QuoteMeta(part)
  }

  function QuotedAll(parts: seq<string>): seq<string> {
    seq(|parts|, i requires 0 <= i < |parts| => Quoted(parts[i]))
  }

  lemma {:induction false} RawFirst(t: Tok, ts: seq<Tok>)
    ensures Raw([t] + ts) == Raw1(t) + Raw(ts)
  {
    assert ([t] + ts)[1..] == ts;
  }

  lemma {:induction false} RawConcat(a: seq<Tok>, b: seq<Tok>)
    ensures Raw(a + b) == Raw(a) + Raw(b)
  {
    if a == [] {
      assert a + b == b && "" + Raw(b) == Raw(b);
    } else {
      var rest := a[1..];
      RawConcat(rest, b);
      RawFirst(a[0], rest + b);
      FirstOfConcat(a, b);
      Seqs.Assoc(Raw1(a[0]), Raw(rest), Raw(b));
    }
  }

  lemma {:induction false} RawOnto(c: char, ts: seq<Tok>)
    ensures Raw(OntoText(c, ts)) == QuoteChar(c) + Raw(ts)
  {
    if ts != [] && ts[0].Text? {
      var w := ts[0].text;
      assert ([c] + w)[1..] == w;
      RawFirst(Text([c] + w), ts[1..]);
      Seqs.Assoc(QuoteChar(c), QuoteMeta(w), Raw(ts[1..]));
    } else {
      assert [c][1..] == "" && QuoteMeta([c]) == QuoteChar(c) + "" == QuoteChar(c);
      RawFirst(Text([c]), ts);
    }
  }

  lemma {:induction false} RawWord(part: string)
    ensures Raw(WordToks(part)) == QuoteMeta(part)
  {
    if part != "" {
      var c, rest := part[0], part[1..];
      RawWord(rest);
      RawFirst(Mark, WordToks(rest));
      RawFirst(Stray, WordToks(rest));
      RawOnto(c, WordToks(rest));
    }
  }

  lemma {:induction false} RawPart(part: string)
    ensures Raw(PartToks(part)) == Quoted(part)
  {
    RawWord(part);
    if part == "*" {
      assert [One][1..] == [] && Raw([One]) == "*" + "";
    } else if part == "#" {
      assert part[1..] == "" && QuoteMeta(part) == "#" + "";
    }
  }

  /** Escaping the parts and joining them gives the text of the pieces. */
  lemma {:induction false} RawJoined(parts: seq<string>)
    requires parts != []
    ensures JoinWith(QuotedAll(parts), DOT) == Raw(PartToks(parts[0]) + DottedParts(parts[1..]))
  {
    var first, rest := parts[0], parts[1..];
    assert QuotedAll(parts)[1..] == QuotedAll(rest) && QuotedAll(parts)[0] == Quoted(first);
    RawConcat(PartToks(first), DottedParts(rest));
    RawPart(first);
    if rest == [] {
      assert QuotedAll(parts) == [Quoted(first)] && Quoted(first) + "" == Quoted(first);
    } else {
      RawJoined(rest);
      RawFirst(Sep, PartToks(rest[0]) + DottedParts(rest[1..]));
      Seqs.Assoc(Quoted(first), DOT, JoinWith(QuotedAll(rest), DOT));
    }
  }

  lemma {:induction false} SplitNoDots(s: string)
    ensures forall i :: 0 <= i < |Split(s)| ==> '.' !in Split(s)[i]
  {
    if s != "" { SplitNoDots(s[1..]); }
  }

  lemma {:induction false} WordClean(part: string)
    requires '.' !in part
    ensures Clean(WordToks(part)) && Any !in WordToks(part)
  {
    if part != "" {
      assert part[0] in part && '.' !in part[1..];
      WordClean(part[1..]);
    }
  }

  lemma {:induction false} PartsClean(parts: seq<string>)
    requires forall i :: 0 <= i < |parts| ==> '.' !in parts[i]
    ensures Clean(DottedParts(parts)) && Any !in DottedParts(parts)
  {
    if parts != [] {
      WordClean(parts[0]);
      PartsClean(parts[1..]);
    }
  }

  lemma {:induction false} PiecesClean(key: string)
    ensures Clean(Pieces(key)) && Any !in Pieces(key)
  {
    var parts := Split(key);
    SplitNoDots(key);
    WordClean(parts[0]);
    PartsClean(parts[1..]);
  }

  // ---------------------------------------------------------------- plain patterns

  lemma {:induction false} PlainWord(w: string)
    requires PlainText(w)
    ensures WordToks(w) == [Text(w)]
  {
    assert w[0] in w;
    if |w| == 1 {
      assert w[1..] == "" && [w[0]] == w;
    } else {
      assert '.' !in w[1..] && '*' !in w[1..] && '#' !in w[1..];
      PlainWord(w[1..]);
      assert [w[0]] + w[1..] == w && [Text(w[1..])][1..] == [];
    }
  }

  lemma {:induction false} SourceToks(w: Word)
    requires w.Lit? ==> PatternWord(w.text)
    ensures PartToks(Source1(w)) == [Tok1(w)]
  {
    match w
    case Star =>
    case Hash => assert "#"[1..] == "" && WordToks("#") == [Mark] + [];
    case Lit(t) => PlainWord(t); assert t[0] in t;
  }

  lemma {:induction false} SourcesDotted(ws: seq<Word>)
    requires LitsOk(ws)
    ensures DottedParts(Sources(ws)) == Dotted(ws)
  {
    if ws != [] {
      assert Sources(ws)[1..] == Sources(ws[1..]) && Sources(ws)[0] == Source1(ws[0]);
      LitsSuffix(ws, 1);
      SourceToks(ws[0]);
      SourcesDotted(ws[1..]);
    }
  }

  /** The key of a pattern of plain words, stars and hashes is built into what Compiled lists. */
  lemma {:induction false} PatternBuilds(ws: seq<Word>)
    requires PatternOk(ws)
    ensures Rewritten(TrailLoop(LeadLoop(Pieces(Pattern(ws))))) == Compiled(ws)
  {
    SplitPattern(ws);
    assert Sources(ws)[0] == Source1(ws[0]) && Sources(ws)[1..] == Sources(ws[1..]);
    LitsSuffix(ws, 1);
    SourceToks(ws[0]);
    SourcesDotted(ws[1..]);
    LoopsCompile(ws);
  }

  // ---------------------------------------------------------------- the code

  method QuoteParts(parts: seq<string>) returns (quoted: seq<string>)
    ensures |quoted| == |parts| && forall i :: 0 <= i < |parts| ==> quoted[i] == Quoted(parts[i])
  {
    quoted := parts;
    for idx := 0 to |parts|
      invariant |quoted| == |parts|
      invariant forall i :: 0 <= i < idx ==> quoted[i] == Quoted(parts[i])
      invariant forall i :: idx <= i < |parts| ==> quoted[i] == parts[i]
    {
      if quoted[idx] == "*" {
        quoted := quoted[idx := "*"];
      } else if quoted[idx] == "#" {
        quoted := quoted[idx := "#"];
      } else {
        quoted := quoted[idx := QuoteMeta(quoted[idx])];
      }
    }
  }

  /** The loop over the leading #, on the text of any pieces. */
  method StripLeading(text: string, ghost ts: seq<Tok>) returns (key: string)
    requires Clean(ts) && text == Render(ts)
    ensures key == Render(LeadLoop(ts))
  {
    key := text;
    ghost var us := ts;
    while "#\\." <= key
      invariant Clean(us) && key == Render(us) && LeadLoop(us) == LeadLoop(ts)
      decreases |us|
    {
      PrefixIff(us);
      CleanDrop(us, 2);
      PrefixIff(us[2..]);
      key := key[3..];
      if "#\\." <= key {
        us := us[2..];
        continue;
      }
      RenderFirst(Any, us[2..]);
      key := GROUP + key;
      us := [Any] + us[2..];
    }
    PrefixIff(us);
  }

  /** The loop over the trailing #. */
  method StripTrailing(text: string, ghost ts: seq<Tok>) returns (key: string)
    requires Clean(ts) && text == Render(ts)
    ensures key == Render(TrailLoop(ts))
  {
    key := text;
    ghost var us := ts;
    while HasSuffixText(key, "\\.#")
      invariant Clean(us) && key == Render(us) && TrailLoop(us) == TrailLoop(ts)
      decreases |us|
    {
      SuffixIff(us);
      ghost var front := us[..|us| - 2];
      CleanTake(us, |us| - 2);
      SuffixIff(front);
      key := key[..|key| - 3];
      if HasSuffixText(key, "\\.#") {
        us := front;
        continue;
      }
      EndOf(front, Any);
      key := key + GROUP;
      us := front + [Any];
    }
    SuffixIff(us);
  }

  lemma {:induction false} CleanTake(ts: seq<Tok>, n: nat)
    requires Clean(ts) && n <= |ts|
    ensures Clean(ts[..n])
  {
  }

  lemma {:induction false} LoopsClean(ts: seq<Tok>)
    requires Clean(ts)
    ensures Clean(LeadLoop(ts)) && Clean(TrailLoop(ts))
    decreases |ts|
  {
    if HasPrefix(ts) {
      CleanDrop(ts, 2);
      LoopsClean(ts[2..]);
      LoopsClean([Any] + ts[2..]);
    }
    if HasSuffix(ts) {
      CleanTake(ts, |ts| - 2);
      LoopsClean(ts[..|ts| - 2]);
      LoopsClean(ts[..|ts| - 2] + [Any]);
    }
  }

  lemma {:induction false} InnerClean(ts: seq<Tok>)
    requires Clean(ts)
    ensures Clean(ReplaceInner(ts))
    decreases |ts|
  {
    if |ts| >= 3 && ts[..3] == [Sep, Mark, Sep] {
      CleanDrop(ts, 3);
      InnerClean(ts[3..]);
    } else if ts != [] {
      CleanTail(ts);
      InnerClean(ts[1..]);
    }
  }

  /** unicode.IsSpace */
  predicate IsSpace(c: char) {
    || c in " \t\n\r\U{000B}\U{000C}\U{0085}\U{00A0}\U{1680}\U{2028}\U{2029}\U{202F}\U{205F}\U{3000}"
    || '\U{2000}' <= c <= '\U{200A}'
  }

  /** strings.TrimSpace */
  function TrimSpace(s: string): string
    decreases |s|
  {
    if s == "" then ""
    else if IsSpace(s[0]) then TrimSpace(s[1..])
    else if IsSpace(s[|s| - 1]) then TrimSpace(s[..|s| - 1])
    else s
  }

  /** buildRegexp, up to the compilation of the expression, for every routing key: both loops end, and the text they
      build is that of the rewritten pieces of the key. */
  method BuildRegexp(key: string) returns (pattern: string)
    ensures pattern == "^" + Render(Rewritten(TrailLoop(LeadLoop(Pieces(TrimSpace(key)))))) + "$"
  {
    var routingKey := TrimSpace(key);
    var parts := Split(routingKey);
    ghost var ts := Pieces(routingKey);
    PiecesClean(routingKey);
    RawJoined(parts);
    ghost var quoted := QuotedAll(parts);
    parts := QuoteParts(parts);
    assert parts == quoted;
    routingKey := JoinWith(parts, DOT);
    routingKey := Replace(routingKey, "*", WORD);
    StarsReplaced(ts);
    routingKey := StripLeading(routingKey, ts);
    LoopsClean(ts);
    ghost var led := LeadLoop(ts);
    routingKey := StripTrailing(routingKey, led);
    LoopsClean(led);
    ghost var stripped := TrailLoop(led);
    routingKey := Replace(routingKey, INNER, GROUP);
    InnerReplaced(stripped);
    InnerClean(stripped);
    routingKey := Replace(routingKey, "#", GROUP);
    MarksReplaced(ReplaceInner(stripped));
    pattern := "^" + routingKey + "$";
  }
}
