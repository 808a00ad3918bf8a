/**
 An independent account of where a semicolon separates: an automaton that reads a script one character at a time, with
 no look-ahead and no notion of tokens.
 */
module SqlStates {
  import opened Basics
  import opened SqlLexing

  datatype State =
    | Code | Dash | Slash
    | InSingle | SingleSeen | InDouble | DoubleSeen
    | InBracket | InBacktick | InLine | InBlock | StarSeen

  function Delta(q: State, c: char): State {
    match q
    case Dash => if c == '-' then InLine else Fresh(c)
    case Slash => if c == '*' then StarSeen else Fresh(c)
    case InSingle => if c == '\'' then SingleSeen else InSingle
    case SingleSeen => if c == '\'' then InSingle else Fresh(c)
    case InDouble => if c == '"' then DoubleSeen else InDouble
    case DoubleSeen => if c == '"' then InDouble else Fresh(c)
    case InBracket => if c == ']' then Code else InBracket
    case InBacktick => if c == '`' then Code else InBacktick
    case InLine => if c == '\n' then Code else InLine
    case InBlock => if c == '*' then StarSeen else InBlock
    case StarSeen => if c == '/' then Code else if c == '*' then StarSeen else InBlock
    case Code => Fresh(c)
  }

  function Fresh(c: char): State {
    if c == '\'' then InSingle
    else if c == '"' then InDouble
    else if c == '[' then InBracket
    else if c == '`' then InBacktick
    else if c == '-' then Dash
    else if c == '/' then Slash
    else Code
  }

  /** Outside every quoted run and comment. */
  predicate Outside(q: State) { q.Code? || q.Dash? || q.Slash? || q.SingleSeen? || q.DoubleSeen? }

  function After(q: State, s: string): State
    decreases |s|
  {
    if s == "" then q else After(Delta(q, s[0]), s[1..])
  }

  lemma {:induction false} AfterConcat(q: State, s: string, t: string)
    ensures After(q, s + t) == After(After(q, s), t)
    decreases |s|
  {
    if s == "" {
      assert s + t == t;
    } else {
      assert (s + t)[1..] == s[1..] + t;
      AfterConcat(Delta(q, s[0]), s[1..], t);
    }
  }

  /** What q still remembers does not matter to what follows. */
  predicate Settled(q: State, s: string) {
    Outside(q) && (s != "" ==> Delta(q, s[0]) == Fresh(s[0]))
  }

  /** From x, the first n characters of t hold no semicolon read outside, and the automaton is settled after them. */
  ghost predicate Swallows(x: State, t: string, n: nat) {
    && n <= |t|
    && (forall j :: 0 <= j < n && t[j] == ';' ==> !Outside(After(x, t[..j])))
    && (n < |t| ==> Settled(After(x, t[..n]), t[n..]))
  }

  lemma SwallowNone(x: State, t: string)
    requires t != "" ==> Settled(x, t)
    ensures Swallows(x, t, 0)
  {
    assert t[..0] == "" && t[0..] == t;
  }

  lemma SwallowOne(x: State, t: string, n: nat)
    requires t != "" && n > 0
    requires t[0] == ';' ==> !Outside(x)
    requires Swallows(Delta(x, t[0]), t[1..], n - 1)
    ensures Swallows(x, t, n)
  {
    var y, u := Delta(x, t[0]), t[1..];
    forall j | 0 < j <= n
      ensures After(x, t[..j]) == After(y, u[..j - 1])
    {
      assert t[..j][0] == t[0] && t[..j][1..] == u[..j - 1];
    }
    assert t[..0] == "";
    forall j | 0 <= j < n && t[j] == ';'
      ensures !Outside(After(x, t[..j]))
    {
      if j > 0 { assert u[j - 1] == t[j]; }
    }
    if n < |t| { assert u[n - 1..] == t[n..]; }
  }

  lemma {:induction false} QuoteSwallows(q: char, x: State, t: string)
    requires (q == '\'' && x == InSingle) || (q == '"' && x == InDouble)
    ensures Swallows(x, t, QuoteRun(q, t))
    decreases |t|
  {
    if t == "" {
      SwallowNone(x, t);
    } else if t[0] != q {
      QuoteSwallows(q, x, t[1..]);
      SwallowOne(x, t, QuoteRun(q, t));
    } else if |t| > 1 && t[1] == q {
      QuoteSwallows(q, x, t[2..]);
      assert t[1..][1..] == t[2..];
      SwallowOne(Delta(x, q), t[1..], QuoteRun(q, t) - 1);
      SwallowOne(x, t, QuoteRun(q, t));
    } else {
      SwallowNone(Delta(x, q), t[1..]);
      SwallowOne(x, t, 1);
    }
  }

  lemma {:induction false} RunSwallows(c: char, x: State, t: string)
    requires (c == ']' && x == InBracket) || (c == '`' && x == InBacktick) || (c == '\n' && x == InLine)
             || (c == '\n' && x == Dash && t != "" && t[0] == '-')
    ensures Swallows(x, t, RunTo(c, t))
    decreases |t|
  {
    if t == "" {
      SwallowNone(x, t);
    } else if t[0] == c {
      SwallowNone(Delta(x, c), t[1..]);
      SwallowOne(x, t, 1);
    } else {
      RunSwallows(c, Delta(x, t[0]), t[1..]);
      SwallowOne(x, t, RunTo(c, t));
    }
  }

  lemma {:induction false} BlockSwallows(x: State, t: string)
    requires x == InBlock || (x == StarSeen && (t == "" || t[0] != '/')) || (x == Slash && t != "" && t[0] == '*')
    ensures Swallows(x, t, BlockRun(t))
    decreases |t|
  {
    if t == "" {
      SwallowNone(x, t);
    } else if |t| > 1 && t[0] == '*' && t[1] == '/' {
      assert t[1..][1..] == t[2..];
      SwallowNone(Code, t[2..]);
      SwallowOne(StarSeen, t[1..], 1);
      SwallowOne(x, t, 2);
    } else {
      BlockSwallows(Delta(x, t[0]), t[1..]);
      SwallowOne(x, t, BlockRun(t));
    }
  }

  /** A whole token is swallowed from any settled state. */
  lemma TokenSwallows(x: State, s: string)
    requires s != "" && Settled(x, s)
    ensures KindOf(s) != Separator ==> Swallows(x, s, TokenLen(Splitter, s))
    ensures KindOf(s) == Separator ==> Settled(Delta(x, s[0]), s[1..])
  {
    var y, t := Delta(x, s[0]), s[1..];
    match KindOf(s)
    case Separator =>
    case Plain =>
      assert y.Dash? && t != "" ==> s[1] != '-';
      assert y.Slash? && t != "" ==> s[1] != '*';
      SwallowNone(y, t);
      SwallowOne(x, s, 1);
    case Single | Double => QuotedSwallows(x, s);
    case Bracket => RunTokenSwallows(x, s, ']');
    case Backtick => RunTokenSwallows(x, s, '`');
    case Line => RunTokenSwallows(x, s, '\n');
    case Block => BlockSwallows(y, t); SwallowOne(x, s, TokenLen(Splitter, s));
  }

  lemma QuotedSwallows(x: State, s: string)
    requires s != "" && Settled(x, s) && (KindOf(s) == Single || KindOf(s) == Double)
    ensures Swallows(x, s, TokenLen(Splitter, s))
  {
    QuoteSwallows(s[0], Delta(x, s[0]), s[1..]);
    SwallowOne(x, s, TokenLen(Splitter, s));
  }

  /** A construct whose run ends with the given character. */
  lemma RunTokenSwallows(x: State, s: string, end: char)
    requires s != "" && Settled(x, s)
    requires match KindOf(s)
             case Bracket => end == ']'
             case Backtick => end == '`'
             case Line => end == '\n'
             case _ => false
    ensures Swallows(x, s, TokenLen(Splitter, s))
  {
    RunSwallows(end, Delta(x, s[0]), s[1..]);
    RunTokenLen(s, end);
    SwallowOne(x, s, TokenLen(Splitter, s));
  }

  lemma RunTokenLen(s: string, end: char)
    requires s != ""
    requires match KindOf(s)
             case Bracket => end == ']'
             case Backtick => end == '`'
             case Line => end == '\n'
             case _ => false
    ensures TokenLen(Splitter, s) == 1 + RunTo(end, s[1..])
  {
  }

  lemma SettledAfterToken(x: State, s: string)
    requires s != "" && Settled(x, s)
    ensures var n := TokenLen(Splitter, s); n < |s| ==> Settled(After(x, s[..n]), s[n..])
  {
    TokenSwallows(x, s);
    if KindOf(s) == Separator {
      assert s[..1] == [s[0]] && [s[0]][1..] == "";
      assert After(x, [s[0]]) == After(Delta(x, s[0]), "");
    }
  }

  lemma NothingInsideToken(x: State, s: string, i: nat)
    requires s != "" && Settled(x, s) && 0 < i < TokenLen(Splitter, s)
    ensures s[i] == ';' ==> !Outside(After(x, s[..i]))
  {
    TokenSwallows(x, s);
  }

  lemma {:induction false} SeparatorFrom(q: State, s: string, i: nat)
    requires i < |s| && Settled(q, s)
    ensures SeparatorAt(Splitter, s, i) <==> s[i] == ';' && Outside(After(q, s[..i]))
    decreases |s|
  {
    var n := TokenLen(Splitter, s);
    SeparatorHere(Splitter, s, i);
    if i == 0 {
      assert s[..0] == "";
    } else if i < n {
      NothingInsideToken(q, s, i);
    } else {
      SettledAfterToken(q, s);
      SeparatorFrom(After(q, s[..n]), s[n..], i - n);
      assert s[..i] == s[..n] + s[n..][..i - n];
      AfterConcat(q, s[..n], s[n..][..i - n]);
    }
  }

  /** A semicolon separates exactly when the automaton is outside every quoted run and comment there. */
  lemma SeparatorIffOutside(s: string, i: nat)
    requires i < |s|
    ensures SeparatorAt(Splitter, s, i) <==> s[i] == ';' && Outside(After(Code, s[..i]))
  {
    SeparatorFrom(Code, s, i);
  }

  /** Where the k-th raw piece ends. */
  function PieceEnd(parts: seq<string>, k: nat): nat
    requires k < |parts|
  {
    if k == 0 then |parts[0]| else |parts[0]| + 1 + PieceEnd(parts[1..], k - 1)
  }

  ghost predicate EndsSomePiece(p: seq<string>, i: int) {
    exists k: nat :: k < |p| - 1 && PieceEnd(p, k) == i
  }

  /** The script is cut at its separators and nowhere else. */
  lemma {:induction false} CutAtSeparators(s: string, i: nat)
    ensures SeparatorAt(Splitter, s, i) <==> EndsSomePiece(RawPieces(s), i)
    decreases |s|
  {
    SeparatorHere(Splitter, s, i);
    if s == "" {
      NoPieceEnds(i);
    } else {
      var n := TokenLen(Splitter, s);
      var p, h := RawPieces(s), RawPieces(s[n..]);
      PiecesLead(s);
      if i >= n { CutAtSeparators(s[n..], i - n); }
      if KindOf(s) == Separator { ShiftedEnds(p, h, n, i); } else { ExtendedEnds(p, h, n, i); }
    }
  }

  lemma NoPieceEnds(i: int)
    ensures !EndsSomePiece(RawPieces(""), i)
  {
  }

  /** The pieces of a script from those of what follows its first token. */
  lemma PiecesLead(s: string)
    requires s != ""
    ensures var n := TokenLen(Splitter, s);
      var p, h := RawPieces(s), RawPieces(s[n..]);
      if KindOf(s) == Separator then n == 1 && p == [""] + h
      else |p| == |h| && p[1..] == h[1..] && |p[0]| == n + |h[0]|
  {
    var n := TokenLen(Splitter, s);
    var t, rest := Token(KindOf(s), s[..n]), Tokens(Splitter, s[n..]);
    TokensFirst(Splitter, s);
    assert ([t] + rest)[1..] == rest;
    RenderCons(TokenText, t, Groups(rest)[0]);
  }

  lemma ShiftedEnds(p: seq<string>, h: seq<string>, n: nat, i: nat)
    requires h != [] && p == [""] + h && n == 1
    ensures EndsSomePiece(p, i) <==> i == 0 || EndsSomePiece(h, i - n)
  {
    assert p[1..] == h;
    if EndsSomePiece(p, i) {
      var k: nat :| k < |p| - 1 && PieceEnd(p, k) == i;
      assert k > 0 ==> PieceEnd(h, k - 1) == i - n;
    }
    if i == 0 { assert PieceEnd(p, 0) == 0; }
    if EndsSomePiece(h, i - n) {
      var k: nat :| k < |h| - 1 && PieceEnd(h, k) == i - n;
      assert PieceEnd(p, k + 1) == i;
    }
  }

  lemma ExtendedEnds(p: seq<string>, h: seq<string>, n: nat, i: nat)
    requires h != [] && |p| == |h| && p[1..] == h[1..] && |p[0]| == n + |h[0]|
    ensures EndsSomePiece(p, i) <==> EndsSomePiece(h, i - n)
  {
    forall k: nat | k < |p|
      ensures PieceEnd(p, k) == n + PieceEnd(h, k)
    {
    }
    if EndsSomePiece(h, i - n) {
      var k: nat :| k < |h| - 1 && PieceEnd(h, k) == i - n;
      assert PieceEnd(p, k) == i;
    }
  }
}
