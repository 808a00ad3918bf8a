/** What the stripping scanner leaves visible, told by an automaton over the characters: which pieces are executable. */
module SqlVisible {
  import opened Basics
  import opened SqlLexing
  import opened SqlStates
  import opened SqlSplitter

  /** The automaton of the separators, but for the star that opens a comment, which does not also close it. */
  function Next(q: State, c: char): State { if q.Slash? && c == '*' then InBlock else Delta(q, c) }

  function Run(q: State, s: string): State
    decreases |s|
  {
    if s == "" then q else Run(Next(q, s[0]), s[1..])
  }

  predicate OpensComment(s: string) {
    |s| > 1 && ((s[0] == '-' && s[1] == '-') || (s[0] == '/' && s[1] == '*'))
  }

  /** The first character of s is neither white space nor part of a quoted run or a comment. */
  predicate Shows(q: State, s: string) {
    s != "" && Outside(q) && Outside(Next(q, s[0])) && !IsSpace(s[0]) && !OpensComment(s)
  }

  predicate VisibleAt(s: string, k: nat) { k < |s| && Shows(Run(Code, s[..k]), s[k..]) }

  /** Position k of s shows, when s is read from q. */
  predicate ShowsAt(q: State, s: string, k: nat)
    requires k <= |s|
  {
    Shows(Run(q, s[..k]), s[k..])
  }

  lemma ShowsLater(q: State, s: string, n: nat, k: nat)
    requires n + k <= |s|
    ensures ShowsAt(q, s, n + k) == ShowsAt(Run(q, s[..n]), s[n..], k)
  {
    RunConcat(q, s[..n], s[n..][..k]);
    assert s[..n + k] == s[..n] + s[n..][..k] && s[n + k..] == s[n..][k..];
  }

  lemma {:induction false} RunConcat(q: State, s: string, t: string)
    ensures Run(q, s + t) == Run(Run(q, s), t)
    decreases |s|
  {
    if s == "" {
      assert s + t == t;
    } else {
      assert (s + t)[1..] == s[1..] + t && (s + t)[0] == s[0];
      RunConcat(Next(q, s[0]), s[1..], t);
    }
  }

  /** What q still remembers does not matter to what follows. */
  predicate Ready(q: State, s: string) { Outside(q) && (s != "" ==> Next(q, s[0]) == Fresh(s[0])) }

  /** None of the first n characters shows, and the automaton is ready for what follows. */
  ghost predicate Hides(x: State, t: string, n: nat) {
    && n <= |t|
    && (n < |t| ==> Ready(Run(x, t[..n]), t[n..]))
    && forall k :: 0 <= k < n ==> !ShowsAt(x, t, k)
  }

  lemma HideNone(x: State, t: string)
    requires t != "" ==> Ready(x, t)
    ensures Hides(x, t, 0)
  {
    assert t[..0] == "" && t[0..] == t;
  }

  lemma HideOne(x: State, t: string, n: nat)
    requires t != "" && n > 0 && !Shows(x, t) && Hides(Next(x, t[0]), t[1..], n - 1)
    ensures Hides(x, t, n)
  {
    assert t[..n][0] == t[0] && t[..n][1..] == t[1..][..n - 1];
    assert t[1..][n - 1..] == t[n..];
    assert t[..0] == "" && t[0..] == t;
    forall k | 0 < k < n ensures !ShowsAt(x, t, k) {
      RunOne(x, t);
      ShowsLater(x, t, 1, k - 1);
    }
  }

  lemma RunOne(x: State, t: string)
    requires t != ""
    ensures Run(x, t[..1]) == Next(x, t[0])
  {
    assert t[..1][1..] == "";
  }

  lemma {:induction false} QuoteHides(q: char, x: State, t: string)
    requires (q == '\'' && x == InSingle) || (q == '"' && x == InDouble)
    ensures Hides(x, t, QuoteRun(q, t))
    decreases |t|
  {
    if t == "" {
      HideNone(x, t);
    } else if t[0] != q {
      QuoteHides(q, x, t[1..]);
      HideOne(x, t, QuoteRun(q, t));
    } else if |t| > 1 && t[1] == q {
      QuoteHides(q, x, t[2..]);
      assert t[1..][1..] == t[2..];
      HideOne(Next(x, q), t[1..], QuoteRun(q, t) - 1);
      HideOne(x, t, QuoteRun(q, t));
    } else {
      HideNone(Next(x, q), t[1..]);
      HideOne(x, t, 1);
    }
  }

  lemma {:induction false} RunHides(c: char, x: State, t: string)
    requires (c == ']' && x == InBracket) || (c == '`' && x == InBacktick) || (c == '\n' && x == InLine)
    ensures Hides(x, t, RunTo(c, t))
    decreases |t|
  {
    if t == "" {
      HideNone(x, t);
    } else if t[0] == c {
      HideNone(Next(x, c), t[1..]);
      HideOne(x, t, 1);
    } else {
      RunHides(c, x, t[1..]);
      HideOne(x, t, RunTo(c, t));
    }
  }

  lemma {:induction false} BlockHides(x: State, t: string)
    requires x == InBlock || (x == StarSeen && (t == "" || t[0] != '/'))
    ensures Hides(x, t, BlockRun(t))
    decreases |t|
  {
    if t == "" {
      HideNone(x, t);
    } else if |t| > 1 && t[0] == '*' && t[1] == '/' {
      assert t[1..][1..] == t[2..];
      HideNone(Code, t[2..]);
      HideOne(StarSeen, t[1..], 1);
      HideOne(x, t, 2);
    } else {
      BlockHides(Next(x, t[0]), t[1..]);
      HideOne(x, t, BlockRun(t));
    }
  }

  /** A quoted run or a comment hides itself whole. */
  lemma ConstructHides(x: State, s: string)
    requires s != "" && Ready(x, s) && KindOf(s) != Plain && KindOf(s) != Separator
    ensures Hides(x, s, TokenLen(Stripper, s))
  {
    match KindOf(s)
    case Line | Block => CommentHides(x, s);
    case _ => QuotedHides(x, s);
  }

  lemma QuotedHides(x: State, s: string)
    requires s != "" && Ready(x, s) && KindOf(s) in {Single, Double, Bracket, Backtick}
    ensures Hides(x, s, TokenLen(Stripper, s))
  {
    var y, t := Next(x, s[0]), s[1..];
    if KindOf(s) == Single || KindOf(s) == Double {
      QuoteHides(s[0], y, t);
    } else {
      RunHides(if KindOf(s) == Bracket then ']' else '`', y, t);
    }
    HideOne(x, s, TokenLen(Stripper, s));
  }

  lemma CommentHides(x: State, s: string)
    requires s != "" && Ready(x, s) && (KindOf(s) == Line || KindOf(s) == Block)
    ensures Hides(x, s, TokenLen(Stripper, s))
  {
    var y, t := Next(x, s[0]), s[1..];
    assert t[1..] == s[2..];
    if KindOf(s) == Line { RunHides('\n', InLine, s[2..]); } else { BlockHides(InBlock, s[2..]); }
    HideOne(y, t, TokenLen(Stripper, s) - 1);
    HideOne(x, s, TokenLen(Stripper, s));
  }

  predicate NonSpace(s: string) { exists i :: 0 <= i < |s| && !IsSpace(s[i]) }

  lemma TrimSpaceEmptyIff(s: string)
    ensures TrimSpace(s) != "" <==> NonSpace(s)
  {
    TrimSpaceCuts(s);
    var m: nat, n: nat :| m <= n <= |s| && AllSpace(s[..m]) && AllSpace(s[n..]) && TrimSpace(s) == s[m..n];
    if TrimSpace(s) == "" {
      forall i | 0 <= i < |s| ensures IsSpace(s[i]) {
        if i < m { assert s[..m][i] == s[i]; } else { assert s[n..][i - n] == s[i]; }
      }
    } else {
      assert TrimSpace(s)[0] == s[m];
    }
  }

  lemma NonSpaceConcat(a: string, b: string)
    ensures NonSpace(a + b) <==> NonSpace(a) || NonSpace(b)
  {
    if i :| 0 <= i < |a| && !IsSpace(a[i]) { assert (a + b)[i] == a[i]; }
    if i :| 0 <= i < |b| && !IsSpace(b[i]) { assert (a + b)[|a| + i] == b[i]; }
  }

  lemma StripFirst(s: string)
    requires s != ""
    ensures var n := TokenLen(Stripper, s);
      Strip(s) == StripToken(Token(KindOf(s), s[..n])) + Strip(s[n..])
  {
    var n := TokenLen(Stripper, s);
    TokensFirst(Stripper, s);
    RenderCons(StripToken, Token(KindOf(s), s[..n]), Tokens(Stripper, s[n..]));
  }

  ghost predicate SomeShows(q: State, s: string) { exists k: nat :: k < |s| && ShowsAt(q, s, k) }

  /** Some character shows: one of the first n, or one of the rest. */
  lemma SomeShowsFrom(q: State, s: string, n: nat)
    requires n <= |s|
    ensures SomeShows(q, s) <==> (exists k: nat :: k < n && ShowsAt(q, s, k)) || SomeShows(Run(q, s[..n]), s[n..])
  {
    if k: nat :| k < |s| && ShowsAt(q, s, k) {
      if k >= n {
        ShowsLater(q, s, n, k - n);
        assert k - n < |s[n..]| && ShowsAt(Run(q, s[..n]), s[n..], k - n);
      }
    }
    if j: nat :| j < |s[n..]| && ShowsAt(Run(q, s[..n]), s[n..], j) {
      ShowsLater(q, s, n, j);
      assert ShowsAt(q, s, n + j);
    }
  }

  /** What stripping leaves of a script is more than white space exactly when some character shows. */
  lemma {:induction false} StripShows(q: State, s: string)
    requires s != "" ==> Ready(q, s)
    ensures NonSpace(Strip(s)) <==> SomeShows(q, s)
    decreases |s|
  {
    if s == "" {
      assert Strip(s) == "";
    } else {
      var n := TokenLen(Stripper, s);
      StripFirst(s);
      NonSpaceConcat(StripToken(Token(KindOf(s), s[..n])), Strip(s[n..]));
      SomeShowsFrom(q, s, n);
      if KindOf(s) == Plain || KindOf(s) == Separator {
        PlainShows(q, s);
      } else {
        ConstructHides(q, s);
      }
      StripShows(Run(q, s[..n]), s[n..]);
    }
  }

  lemma PlainShows(q: State, s: string)
    requires s != "" && Ready(q, s) && (KindOf(s) == Plain || KindOf(s) == Separator)
    ensures TokenLen(Stripper, s) == 1 && (ShowsAt(q, s, 0) <==> !IsSpace(s[0]))
    ensures |s| > 1 ==> Ready(Run(q, s[..1]), s[1..])
    ensures NonSpace(StripToken(Token(KindOf(s), s[..1]))) <==> !IsSpace(s[0])
  {
    assert s[..1] == [s[0]] && s[..0] == "" && s[0..] == s;
    RunOne(q, s);
  }

  /**
   A piece is executable exactly when it holds a character that is not white space and lies outside every quoted run
   and comment.
   */
  lemma ExecutableIffVisible(s: string)
    ensures HasExecutableSql(s) <==> exists k: nat :: VisibleAt(s, k)
  {
    TrimSpaceEmptyIff(Strip(s));
    StripShows(Code, s);
    if k: nat :| k < |s| && ShowsAt(Code, s, k) { assert VisibleAt(s, k); }
    if k: nat :| VisibleAt(s, k) { assert ShowsAt(Code, s, k); }
  }
}
