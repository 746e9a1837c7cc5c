/**
 Which routing keys buildRegexp (binding/binding.go) turns into an expression that can compile:
 a * inside a word is escaped first and replaced afterwards, which leaves a parenthesis open.
 */
module TopicStars {
  import opened Topic
  import opened TopicCompiler
  import opened TopicText
  import Seqs

  /** Opening less closing parentheses that are not escaped. An expression that compiles has as many of both. */
  function Depth(s: string): int {
    if s == "" then 0
    else if s[0] == '\\' then if |s| == 1 then 0 else Depth(s[2..])
    else (if s[0] == '(' then 1 else if s[0] == ')' then -1 else 0) + Depth(s[1..])
  }

  /** No backslash at the end waits for a character to escape. */
  predicate Closed(s: string) {
    s == "" || if s[0] == '\\' then |s| > 1 && Closed(s[2..]) else Closed(s[1..])
  }

  lemma {:induction false} DepthConcat(u: string, rest: string)
    requires Closed(u)
    ensures Depth(u + rest) == Depth(u) + Depth(rest) && (Closed(rest) ==> Closed(u + rest))
    decreases |u|
  {
    var s := u + rest;
    if u == "" {
      assert s == rest;
    } else if u[0] == '\\' {
      assert s[2..] == u[2..] + rest;
      DepthConcat(u[2..], rest);
    } else {
      assert s[1..] == u[1..] + rest;
      DepthConcat(u[1..], rest);
    }
  }

  lemma {:induction false} QuotedDepth(w: string)
    ensures Closed(QuoteMeta(w)) && Depth(QuoteMeta(w)) == 0
  {
    if w != "" {
      var q := QuoteChar(w[0]);
      QuotedDepth(w[1..]);
      assert q[1..] == "" || q[2..] == "";
      DepthConcat(q, QuoteMeta(w[1..]));
    }
  }

  lemma {:induction false} TextDepth(t: Tok)
    ensures Closed(Text1(t)) && Depth(Text1(t)) == if t == Stray then -1 else 0
  {
    match t
    case Text(w) => QuotedDepth(w);
    case Sep => assert DOT[2..] == "";
    case Mark => assert "#"[1..] == "";
    case One => WordDepth();
    case Any => GroupDepth();
    case Stray => ClassDepth(); assert STRAY[2..] == CLASS;
  }

  const CLASS := "[^\\.]+)"

  lemma {:induction false} ClassDepth()
    ensures Closed(CLASS) && Depth(CLASS) == -1
  {
    assert CLASS[1..] == "^\\.]+)" && CLASS[1..][1..] == "\\.]+)";
    var s := "\\.]+)";
    assert s[2..] == "]+)" && "]+)"[1..] == "+)" && "+)"[1..] == ")" && ")"[1..] == "";
    assert Depth(")") == -1 && Depth("+)") == -1 && Depth("]+)") == -1 && Depth(s) == -1;
    assert Closed(")") && Closed("+)") && Closed("]+)") && Closed(s);
    assert Depth("^\\.]+)") == -1 && Closed("^\\.]+)");
  }

  lemma {:induction false} WordDepth()
    ensures Closed(WORD) && Depth(WORD) == 0
  {
    ClassDepth();
    assert WORD[1..] == CLASS;
  }

  lemma {:induction false} GroupDepth()
    ensures Closed(GROUP) && Depth(GROUP) == 0
  {
    var s := "\\.?)+";
    assert s[2..] == "?)+" && "?)+"[1..] == ")+" && ")+"[1..] == "+" && "+"[1..] == "";
    assert Depth("+") == 0 && Depth(")+") == -1 && Depth("?)+") == -1 && Depth(s) == -1;
    assert Closed("+") && Closed(")+") && Closed("?)+") && Closed(s);
    assert GROUP[1..] == ".*\\.?)+" && GROUP[1..][1..] == "*\\.?)+" && GROUP[1..][1..][1..] == s;
    assert Depth("*\\.?)+") == -1 && Closed("*\\.?)+");
    assert Depth(".*\\.?)+") == -1 && Closed(".*\\.?)+");
  }

  // ---------------------------------------------------------------- stars that stay

  function Strays(ts: seq<Tok>): nat {
    if ts == [] then 0 else (if ts[0] == Stray then 1 else 0) + Strays(ts[1..])
  }

  lemma {:induction false} StraysConcat(a: seq<Tok>, b: seq<Tok>)
    ensures Strays(a + b) == Strays(a) + Strays(b)
  {
    if a == [] {
      assert a + b == b;
    } else {
      StraysConcat(a[1..], b);
      assert (a + b)[1..] == a[1..] + b;
    }
  }

  lemma {:induction false} RenderDepth(ts: seq<Tok>)
    ensures Closed(Render(ts)) && Depth(Render(ts)) + Strays(ts) == 0
  {
    if ts != [] {
      RenderDepth(ts[1..]);
      TextDepth(ts[0]);
      DepthConcat(Text1(ts[0]), Render(ts[1..]));
    }
  }

  lemma {:induction false} PairStrays(a: Tok, b: Tok)
    ensures Strays([a]) == (if a == Stray then 1 else 0)
    ensures Strays([a, b]) == (if a == Stray then 1 else 0) + if b == Stray then 1 else 0
  {
    assert [a][1..] == [] && [a, b][1..] == [b] && [b][1..] == [];
    assert Strays([b]) == if b == Stray then 1 else 0;
  }

  lemma {:induction false} LeadStrays(ts: seq<Tok>)
    ensures Strays(LeadLoop(ts)) == Strays(ts)
    decreases |ts|
  {
    if HasPrefix(ts) {
      PairStrays(Mark, Sep);
      PairStrays(Any, Any);
      StraysConcat([Mark, Sep], ts[2..]);
      StraysConcat([Any], ts[2..]);
      assert ts == [Mark, Sep] + ts[2..];
      LeadStrays(ts[2..]);
      LeadStrays([Any] + ts[2..]);
    }
  }

  lemma {:induction false} TrailStrays(ts: seq<Tok>)
    ensures Strays(TrailLoop(ts)) == Strays(ts)
    decreases |ts|
  {
    if HasSuffix(ts) {
      var front := ts[..|ts| - 2];
      PairStrays(Sep, Mark);
      PairStrays(Any, Any);
      StraysConcat(front, [Sep, Mark]);
      StraysConcat(front, [Any]);
      assert ts == front + [Sep, Mark];
      TrailStrays(front);
      TrailStrays(front + [Any]);
    }
  }

  lemma {:induction false} InnerStrays(ts: seq<Tok>)
    ensures Strays(ReplaceInner(ts)) == Strays(ts)
    decreases |ts|
  {
    if |ts| >= 3 && ts[..3] == [Sep, Mark, Sep] {
      InnerStrays(ts[3..]);
      assert ts[0] == ts[..3][0] && ts[1] == ts[..3][1] && ts[2] == ts[..3][2];
      assert ts[1..][1..] == ts[2..] && ts[2..][1..] == ts[3..];
      assert Strays(ts) == Strays(ts[1..]) == Strays(ts[2..]) == Strays(ts[3..]);
      assert ([Any] + ReplaceInner(ts[3..]))[1..] == ReplaceInner(ts[3..]);
    } else if ts != [] {
      InnerStrays(ts[1..]);
      assert ([ts[0]] + ReplaceInner(ts[1..]))[1..] == ReplaceInner(ts[1..]);
    }
  }

  lemma {:induction false} MarkStrays(ts: seq<Tok>)
    ensures Strays(ReplaceMarks(ts)) == Strays(ts)
  {
    if ts != [] {
      MarkStrays(ts[1..]);
      assert ReplaceMarks(ts)[1..] == ReplaceMarks(ts[1..]);
    }
  }

  // ---------------------------------------------------------------- stars in the routing key

  /** Nothing but a star, or no star at all. */
  predicate StarAlone(part: string) {
    part == "*" || '*' !in part
  }

  predicate StarsAlone(parts: seq<string>) {
    forall i :: 0 <= i < |parts| ==> StarAlone(parts[i])
  }

  lemma {:induction false} WordStrays(part: string)
    ensures Strays(WordToks(part)) == 0 <==> '*' !in part
  {
    if part != "" {
      var ts := WordToks(part[1..]);
      WordStrays(part[1..]);
      assert '*' in part <==> part[0] == '*' || '*' in part[1..];
      assert ([Mark] + ts)[1..] == ts && ([Stray] + ts)[1..] == ts;
      OntoStrays(part[0], ts);
    }
  }

  lemma {:induction false} OntoStrays(c: char, ts: seq<Tok>)
    ensures Strays(OntoText(c, ts)) == Strays(ts)
  {
    if ts != [] && ts[0].Text? {
      assert OntoText(c, ts)[1..] == ts[1..];
    } else {
      assert OntoText(c, ts)[1..] == ts;
    }
  }

  lemma {:induction false} PartStrays(part: string)
    ensures Strays(PartToks(part)) == 0 <==> StarAlone(part)
  {
    WordStrays(part);
    PairStrays(One, One);
  }

  lemma {:induction false} DottedStrays(parts: seq<string>)
    ensures Strays(DottedParts(parts)) == 0 <==> StarsAlone(parts)
  {
    if parts != [] {
      var rest := PartToks(parts[0]) + DottedParts(parts[1..]);
      PartStrays(parts[0]);
      DottedStrays(parts[1..]);
      StraysConcat(PartToks(parts[0]), DottedParts(parts[1..]));
      assert ([Sep] + rest)[1..] == rest;
      AllParts(parts);
    }
  }

  lemma AllParts(parts: seq<string>)
    requires parts != []
    ensures StarsAlone(parts) <==> StarAlone(parts[0]) && StarsAlone(parts[1..])
  {
    if StarsAlone(parts[1..]) {
      forall i | 0 < i < |parts| ensures StarAlone(parts[i]) { assert parts[i] == parts[1..][i - 1]; }
    }
  }

  lemma {:induction false} PiecesStrays(key: string)
    ensures Strays(Pieces(key)) == 0 <==> StarsAlone(Split(key))
  {
    var parts := Split(key);
    PartStrays(parts[0]);
    DottedStrays(parts[1..]);
    StraysConcat(PartToks(parts[0]), DottedParts(parts[1..]));
    AllParts(parts);
  }

  lemma {:induction false} RewritingKeepsStrays(ts: seq<Tok>)
    ensures Strays(Rewritten(TrailLoop(LeadLoop(ts)))) == Strays(ts)
  {
    LeadStrays(ts);
    TrailStrays(LeadLoop(ts));
    InnerStrays(TrailLoop(LeadLoop(ts)));
    MarkStrays(ReplaceInner(TrailLoop(LeadLoop(ts))));
  }

  /** The expression for a routing key has as many closing as opening parentheses exactly when every * in the key
      stands alone between its dots. Any other key is refused as a binding. */
  lemma {:induction false} MatchedIff(key: string)
    ensures Depth("^" + Render(Rewritten(TrailLoop(LeadLoop(Pieces(key))))) + "$") == 0 <==> StarsAlone(Split(key))
  {
    PiecesStrays(key);
    RewritingKeepsStrays(Pieces(key));
    EnclosedDepth(Rewritten(TrailLoop(LeadLoop(Pieces(key)))));
  }

  lemma {:induction false} EnclosedDepth(ts: seq<Tok>)
    ensures Depth("^" + Render(ts) + "$") + Strays(ts) == 0
  {
    var s := Render(ts);
    RenderDepth(ts);
    assert "^"[1..] == "" && "$"[1..] == "";
    DepthConcat("^", s);
    DepthConcat("^" + s, "$");
  }

  /** The key a*b. */
  lemma StarInsideRefused()
    ensures Depth("^" + Render(Rewritten(TrailLoop(LeadLoop(Pieces("a*b"))))) + "$") != 0
  {
    var key := "a*b";
    MatchedIff(key);
    SplitWord(key, "");
    assert key[1] in key && !StarAlone(Split(key)[0]);
  }
}
