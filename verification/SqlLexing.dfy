/**
 The lexical structure of a migration script: plain characters, separators, quoted runs and comments. The two scanners
 of the splitter read a script differently in one place only, the block comment that opens with three characters
 slash-star-slash, so the structure is defined for both readings.
 */
module SqlLexing {
  import opened Basics

  datatype Kind = Plain | Separator | Single | Double | Bracket | Backtick | Line | Block

  datatype Token = Token(kind: Kind, text: string)

  /** Splitter: the star that opens a block comment may also close it. Stripper: it may not. */
  datatype Reading = Splitter | Stripper

  /** What begins at the front of s outside any construct. */
  function KindOf(s: string): Kind
    requires s != ""
  {
    if s[0] == '\'' then Single
    else if s[0] == '"' then Double
    else if s[0] == '[' then Bracket
    else if s[0] == '`' then Backtick
    else if |s| > 1 && s[0] == '-' && s[1] == '-' then Line
    else if |s| > 1 && s[0] == '/' && s[1] == '*' then Block
    else if s[0] == ';' then Separator
    else Plain
  }

  /** How far into s a quoted run reaches, its closing quote included; a doubled quote does not close it. */
  function QuoteRun(q: char, s: string): (n: nat)
    ensures n <= |s|
  {
    if s == "" then 0
    else if s[0] != q then 1 + QuoteRun(q, s[1..])
    else if |s| > 1 && s[1] == q then 2 + QuoteRun(q, s[2..])
    else 1
  }

  function RunTo(c: char, s: string): (n: nat)
    ensures n <= |s|
  {
    if s == "" then 0 else if s[0] == c then 1 else 1 + RunTo(c, s[1..])
  }

  function BlockRun(s: string): (n: nat)
    ensures n <= |s|
  {
    if s == "" then 0 else if |s| > 1 && s[0] == '*' && s[1] == '/' then 2 else 1 + BlockRun(s[1..])
  }

  /** How far a construct still reaches once the scanner is inside it. */
  function Remaining(kind: Kind, s: string): (n: nat)
    ensures n <= |s|
  {
    match kind
    case Plain | Separator => 0
    case Single => QuoteRun('\'', s)
    case Double => QuoteRun('"', s)
    case Bracket => RunTo(']', s)
    case Backtick => RunTo('`', s)
    case Line => RunTo('\n', s)
    case Block => BlockRun(s)
  }

  function OpeningLen(r: Reading, kind: Kind): nat {
    if r == Stripper && (kind == Block || kind == Line) then 2 else 1
  }

  function TokenLen(r: Reading, s: string): (n: nat)
    requires s != ""
    ensures 0 < n <= |s|
  {
    var o := OpeningLen(r, KindOf(s));
    o + Remaining(KindOf(s), s[o..])
  }

  function Tokens(r: Reading, s: string): seq<Token> {
    if s == "" then []
    else
      var n := TokenLen(r, s);
      [Token(KindOf(s), s[..n])] + Tokens(r, s[n..])
  }

  /** The tokens written one after another, each as f writes it. */
  function Render(f: Token -> string, ts: seq<Token>): string {
    if ts == [] then "" else f(ts[0]) + Render(f, ts[1..])
  }

  function TokenText(t: Token): string { t.text }

  function TextOf(ts: seq<Token>): string { Render(TokenText, ts) }

  /** Nothing of the script is lost or reordered. */
  lemma {:induction false} TokensCover(r: Reading, s: string)
    ensures TextOf(Tokens(r, s)) == s
    decreases |s|
  {
    if s != "" {
      var n := TokenLen(r, s);
      TokensCover(r, s[n..]);
      assert Tokens(r, s)[1..] == Tokens(r, s[n..]);
      assert s == s[..n] + s[n..];
    }
  }

  // Statements: the groups of tokens between separators.

  function Groups(ts: seq<Token>): (g: seq<seq<Token>>)
    ensures |g| > 0
  {
    if ts == [] then [[]]
    else
      var g := Groups(ts[1..]);
      if ts[0].kind == Separator then [[]] + g else [[ts[0]] + g[0]] + g[1..]
  }

  function RenderAll(f: Token -> string, gs: seq<seq<Token>>): (t: seq<string>)
    ensures |t| == |gs| && forall k :: 0 <= k < |gs| ==> t[k] == Render(f, gs[k])
  {
    seq(|gs|, k requires 0 <= k < |gs| => Render(f, gs[k]))
  }

  function RawPieces(s: string): (p: seq<string>)
    ensures |p| > 0
  {
    RenderAll(TokenText, Groups(Tokens(Splitter, s)))
  }

  /** The pieces with one separator between each two. */
  function Join(parts: seq<string>): string
    requires parts != []
  {
    if |parts| == 1 then parts[0] else parts[0] + ";" + Join(parts[1..])
  }

  lemma RenderCons(f: Token -> string, t: Token, ts: seq<Token>)
    ensures Render(f, [t] + ts) == f(t) + Render(f, ts)
  {
    assert ([t] + ts)[1..] == ts;
  }

  lemma JoinExtend(a: string, parts: seq<string>)
    requires parts != []
    ensures Join([a + parts[0]] + parts[1..]) == a + Join(parts)
  {
    var p := [a + parts[0]] + parts[1..];
    assert p[1..] == parts[1..];
    if |parts| > 1 { RegroupThree(a, parts[0], ";", Join(parts[1..])); }
  }

  lemma RegroupThree(a: string, b: string, c: string, d: string)
    ensures ((a + b) + c) + d == a + ((b + c) + d)
  {
  }

  /** However tokens are written, writing them group by group with semicolons between is writing them all. */
  lemma {:induction false} GroupsRender(f: Token -> string, ts: seq<Token>)
    requires forall k :: 0 <= k < |ts| && ts[k].kind == Separator ==> f(ts[k]) == ";"
    ensures Join(RenderAll(f, Groups(ts))) == Render(f, ts)
  {
    if ts != [] {
      var g, h := Groups(ts), Groups(ts[1..]);
      GroupsRender(f, ts[1..]);
      if ts[0].kind == Separator {
        assert RenderAll(f, g)[1..] == RenderAll(f, h);
        assert "" + ";" == ";";
      } else {
        RenderCons(f, ts[0], h[0]);
        assert RenderAll(f, g) == [f(ts[0]) + RenderAll(f, h)[0]] + RenderAll(f, h)[1..];
        JoinExtend(f(ts[0]), RenderAll(f, h));
      }
    }
  }

  lemma {:induction false} SeparatorText(r: Reading, s: string)
    ensures forall k :: 0 <= k < |Tokens(r, s)| && Tokens(r, s)[k].kind == Separator ==> Tokens(r, s)[k].text == ";"
    decreases |s|
  {
    if s != "" {
      var n := TokenLen(r, s);
      SeparatorText(r, s[n..]);
      assert KindOf(s) == Separator ==> n == 1 && s[..1] == ";";
    }
  }

  /** Joining the raw pieces with semicolons gives the script back. */
  lemma PiecesJoin(s: string)
    ensures Join(RawPieces(s)) == s
  {
    SeparatorText(Splitter, s);
    GroupsRender(TokenText, Tokens(Splitter, s));
    TokensCover(Splitter, s);
  }

  // Re-reading one group on its own.

  /** p is s cut somewhere at or after n, either not at all or just before a semicolon. */
  predicate CutAfter(s: string, p: string, n: nat) {
    n <= |p| && p <= s && (p == s || s[|p|] == ';')
  }

  lemma {:induction false} QuoteRunLocal(q: char, s: string, p: string)
    requires q != ';' && CutAfter(s, p, QuoteRun(q, s))
    ensures QuoteRun(q, p) == QuoteRun(q, s)
    decreases |s|
  {
    if s != "" {
      if s[0] != q {
        QuoteRunLocal(q, s[1..], p[1..]);
      } else if |s| > 1 && s[1] == q {
        QuoteRunLocal(q, s[2..], p[2..]);
      }
    }
  }

  lemma {:induction false} RunToLocal(c: char, s: string, p: string)
    requires CutAfter(s, p, RunTo(c, s))
    ensures RunTo(c, p) == RunTo(c, s)
    decreases |s|
  {
    if s != "" && s[0] != c { RunToLocal(c, s[1..], p[1..]); }
  }

  lemma {:induction false} BlockRunLocal(s: string, p: string)
    requires CutAfter(s, p, BlockRun(s))
    ensures BlockRun(p) == BlockRun(s)
    decreases |s|
  {
    if s != "" && !(|s| > 1 && s[0] == '*' && s[1] == '/') { BlockRunLocal(s[1..], p[1..]); }
  }

  /** The first token is the same however much of the script follows it. */
  lemma TokenLocal(r: Reading, s: string, p: string)
    requires s != "" && CutAfter(s, p, TokenLen(r, s))
    ensures TokenLen(r, p) == TokenLen(r, s) && KindOf(p) == KindOf(s)
  {
    assert KindOf(p) == KindOf(s);
    var o := OpeningLen(r, KindOf(s));
    var t, u := s[o..], p[o..];
    assert CutAfter(t, u, TokenLen(r, s) - o);
    match KindOf(s)
    case Plain | Separator =>
    case Single => QuoteRunLocal('\'', t, u);
    case Double => QuoteRunLocal('"', t, u);
    case Bracket => RunToLocal(']', t, u);
    case Backtick => RunToLocal('`', t, u);
    case Line => RunToLocal('\n', t, u);
    case Block => BlockRunLocal(t, u);
  }

  lemma PrependToken(r: Reading, s: string, q: string)
    requires s != "" && KindOf(s) != Separator
    requires CutAfter(s[TokenLen(r, s)..], q, 0)
    ensures var n := TokenLen(r, s);
            var p := s[..n] + q;
            && CutAfter(s, p, 0)
            && (p == s <==> q == s[n..])
            && (p != s ==> s[|p| + 1..] == s[n..][|q| + 1..])
            && Tokens(r, p) == [Token(KindOf(s), s[..n])] + Tokens(r, q)
  {
    var n := TokenLen(r, s);
    var p := s[..n] + q;
    assert q == s[n..][..|q|];
    assert p == s[..|p|];
    assert |p| < |s| ==> s[|p|] == s[n..][|q|];
    TokenLocal(r, s, p);
    assert p[..n] == s[..n] && p[n..] == q;
  }

  /** The first group's text is the script cut before its first separator, and reads back as the same tokens. */
  lemma {:induction false} FirstGroupReads(r: Reading, s: string)
    ensures var g := Groups(Tokens(r, s))[0];
            CutAfter(s, TextOf(g), 0) && Tokens(r, TextOf(g)) == g
    decreases |s|
  {
    if s != "" && KindOf(s) != Separator {
      var n := TokenLen(r, s);
      FirstGroupReads(r, s[n..]);
      var h := Groups(Tokens(r, s[n..]))[0];
      PrependToken(r, s, TextOf(h));
      RenderCons(TokenText, Token(KindOf(s), s[..n]), h);
      assert Tokens(r, s)[1..] == Tokens(r, s[n..]);
    }
  }

  lemma LaterGroup(t: Token, ts: seq<Token>, k: nat)
    requires 0 < k < |Groups([t] + ts)|
    ensures var j := if t.kind == Separator then k - 1 else k;
            j < |Groups(ts)| && Groups([t] + ts)[k] == Groups(ts)[j]
  {
    assert ([t] + ts)[1..] == ts;
  }

  /** Every statement, read on its own, has the tokens it has in the script. */
  lemma {:induction false} GroupsReadBack(r: Reading, s: string, k: nat)
    requires k < |Groups(Tokens(r, s))|
    ensures Tokens(r, TextOf(Groups(Tokens(r, s))[k])) == Groups(Tokens(r, s))[k]
    decreases |s|
  {
    var ts := Tokens(r, s);
    if k == 0 {
      FirstGroupReads(r, s);
    } else {
      var n := TokenLen(r, s);
      var t, rest := Token(KindOf(s), s[..n]), Tokens(r, s[n..]);
      assert ts == [t] + rest;
      LaterGroup(t, rest, k);
      GroupsReadBack(r, s[n..], if t.kind == Separator then k - 1 else k);
    }
  }

  lemma {:induction false} GroupsHoldNoSeparator(ts: seq<Token>, k: nat)
    requires k < |Groups(ts)|
    ensures forall j :: 0 <= j < |Groups(ts)[k]| ==> Groups(ts)[k][j].kind != Separator
  {
    if ts != [] {
      var h := Groups(ts[1..]);
      if ts[0].kind == Separator {
        if k > 0 { GroupsHoldNoSeparator(ts[1..], k - 1); }
      } else {
        GroupsHoldNoSeparator(ts[1..], k);
      }
    }
  }

  lemma {:induction false} OneGroup(ts: seq<Token>)
    requires forall j :: 0 <= j < |ts| ==> ts[j].kind != Separator
    ensures Groups(ts) == [ts]
  {
    if ts != [] {
      OneGroup(ts[1..]);
      assert [ts[0]] + ts[1..] == ts;
    }
  }

  /** Splitting a piece again gives the piece. */
  lemma PieceIsWhole(s: string, k: nat)
    requires k < |RawPieces(s)|
    ensures RawPieces(RawPieces(s)[k]) == [RawPieces(s)[k]]
  {
    var g := Groups(Tokens(Splitter, s));
    GroupsReadBack(Splitter, s, k);
    GroupsHoldNoSeparator(Tokens(Splitter, s), k);
    OneGroup(g[k]);
  }

  lemma {:induction false} NoSemicolonNoSeparator(r: Reading, s: string)
    requires ';' !in s
    ensures forall k :: 0 <= k < |Tokens(r, s)| ==> Tokens(r, s)[k].kind != Separator
    decreases |s|
  {
    if s != "" {
      NoSemicolonNoSeparator(r, s[TokenLen(r, s)..]);
    }
  }

  /** A script without a semicolon is one piece. */
  lemma NoSemicolonOnePiece(s: string)
    requires ';' !in s
    ensures RawPieces(s) == [s]
  {
    NoSemicolonNoSeparator(Splitter, s);
    OneGroup(Tokens(Splitter, s));
    TokensCover(Splitter, s);
  }

  // Where a script is separated.

  /** With pieces of text as long as `len` says, one that `sep` names begins at i and is one character long. */
  predicate CutAt(len: string -> nat, sep: string -> bool, s: string, i: nat)
    decreases |s|
  {
    && s != "" && 0 < len(s) <= |s|
    && if i < len(s) then i == 0 && sep(s) else CutAt(len, sep, s[len(s)..], i - len(s))
  }

  lemma {:induction false} CutBehind(len: string -> nat, sep: string -> bool, s: string, i: nat, j: nat)
    requires CutAt(len, sep, s, i) && forall t :: sep(t) ==> len(t) == 1
    ensures i < |s| && (CutAt(len, sep, s, i + 1 + j) <==> CutAt(len, sep, s[i + 1..], j))
    decreases |s|
  {
    var n := len(s);
    if i >= n {
      CutBehind(len, sep, s[n..], i - n, j);
      DropBoth(s, n, i);
    }
  }

  lemma DropBoth(s: string, n: nat, i: nat)
    requires n <= i < |s|
    ensures s[n..][i - n] == s[i] && s[n..][i - n + 1..] == s[i + 1..]
  {
  }

  function Lengths(r: Reading): string -> nat { (s: string) => if s == "" then 0 else TokenLen(r, s) }

  function Separates(): string -> bool { (s: string) => s != "" && KindOf(s) == Separator }

  /** Position i of s holds a separator token. */
  predicate SeparatorAt(r: Reading, s: string, i: nat) { CutAt(Lengths(r), Separates(), s, i) }

  lemma SeparatorHere(r: Reading, s: string, i: nat)
    ensures SeparatorAt(r, s, i) <==>
      s != "" && if i < TokenLen(r, s) then i == 0 && KindOf(s) == Separator
                 else SeparatorAt(r, s[TokenLen(r, s)..], i - TokenLen(r, s))
  {
    assert s != "" ==> Lengths(r)(s) == TokenLen(r, s);
  }

  /** What follows a separator is separated as it would be alone. */
  lemma SeparatorBehind(r: Reading, s: string, i: nat, j: nat)
    requires SeparatorAt(r, s, i)
    ensures i < |s| && (SeparatorAt(r, s, i + 1 + j) <==> SeparatorAt(r, s[i + 1..], j))
  {
    CutBehind(Lengths(r), Separates(), s, i, j);
  }

  lemma {:induction false} SeparatorIsSemicolon(r: Reading, s: string, i: nat)
    requires SeparatorAt(r, s, i)
    ensures i < |s| && s[i] == ';'
    decreases |s|
  {
    SeparatorHere(r, s, i);
    if i >= TokenLen(r, s) { SeparatorIsSemicolon(r, s[TokenLen(r, s)..], i - TokenLen(r, s)); }
  }

  lemma TokensFirst(r: Reading, s: string)
    requires s != ""
    ensures Tokens(r, s) == [Token(KindOf(s), s[..TokenLen(r, s)])] + Tokens(r, s[TokenLen(r, s)..])
  {
  }

  /** Cut before a later semicolon, a script keeps its first token. */
  lemma FirstBefore(r: Reading, s: string, i: nat)
    requires s != "" && TokenLen(r, s) <= i < |s| && s[i] == ';'
    ensures var n := TokenLen(r, s);
      Tokens(r, s[..i]) == [Token(KindOf(s), s[..n])] + Tokens(r, s[n..][..i - n])
  {
    var n := TokenLen(r, s);
    TokenLocal(r, s, s[..i]);
    TokensFirst(r, s[..i]);
    assert s[..i][n..] == s[n..][..i - n] && s[..i][..n] == s[..n];
  }

  /** A separator divides the tokens into those of the text before it and those of the text after it. */
  lemma {:induction false} TokensDivide(r: Reading, s: string, i: nat)
    requires SeparatorAt(r, s, i)
    ensures i < |s|
    ensures Tokens(r, s) == Tokens(r, s[..i]) + ([Token(Separator, ";")] + Tokens(r, s[i + 1..]))
    decreases |s|
  {
    var n := TokenLen(r, s);
    SeparatorHere(r, s, i);
    SeparatorIsSemicolon(r, s, i);
    TokensFirst(r, s);
    if i < n {
      SeparatorFirst(r, s);
    } else {
      TokensDivide(r, s[n..], i - n);
      DropBoth(s, n, i);
      FirstBefore(r, s, i);
      var behind := [Token(Separator, ";")] + Tokens(r, s[i + 1..]);
      TokensRegroup(Token(KindOf(s), s[..n]), Tokens(r, s[n..][..i - n]), behind);
    }
  }

  lemma SeparatorFirst(r: Reading, s: string)
    requires s != "" && KindOf(s) == Separator
    ensures s[0] == ';' && Tokens(r, s) == Tokens(r, s[..0]) + ([Token(Separator, ";")] + Tokens(r, s[1..]))
  {
    assert s[..0] == "" && s[..1] == ";";
    TokensFirst(r, s);
  }

  lemma TokensRegroup(t: Token, a: seq<Token>, b: seq<Token>)
    ensures [t] + (a + b) == ([t] + a) + b
  {
  }

  // Where the two readings part.

  const TIGHT := "/*/"

  /** A block comment opened with slash-star-slash before the end of the script. */
  predicate TightComment(ts: seq<Token>) {
    exists k :: 0 <= k < |ts| - 1 && ts[k] == Token(Block, TIGHT)
  }

  lemma {:induction false} BlockRunPositive(s: string)
    requires s != ""
    ensures BlockRun(s) > 0 && (|s| > 1 ==> BlockRun(s) > 1)
  {
    if |s| > 1 && !(s[0] == '*' && s[1] == '/') { BlockRunPositive(s[1..]); }
  }

  lemma TokenLenReadings(s: string)
    requires s != ""
    ensures (TokenLen(Splitter, s) == TokenLen(Stripper, s))
            <==> !(KindOf(s) == Block && |s| > 3 && s[..3] == TIGHT)
  {
    if KindOf(s) == Line {
      assert s[1..][0] == '-' && s[1..][1..] == s[2..];
    }
    if KindOf(s) == Block {
      var t := s[1..];
      assert t[0] == '*' && t[1..] == s[2..];
      if |s| > 2 && s[2] == '/' {
        assert s[..3] == TIGHT;
        assert BlockRun(t) == 2;
        BlockRunPositive(s[2..]);
        if |s| > 3 {
          assert s[2..][1..] == s[3..];
          BlockRunPositive(s[3..]);
        } else {
          assert s[2..] == "/";
        }
      } else {
        assert |s| > 2 ==> s[..3][2] == s[2];
        assert BlockRun(t) == 1 + BlockRun(t[1..]);
      }
    }
  }

  /** The two scanners cut a script alike exactly when no such comment is opened in it. */
  lemma {:induction false} ReadingsAgree(s: string)
    ensures Tokens(Splitter, s) == Tokens(Stripper, s) <==> !TightComment(Tokens(Splitter, s))
    decreases |s|
  {
    if s != "" {
      TokenLenReadings(s);
      if KindOf(s) == Block && |s| > 3 && s[..3] == TIGHT {
        TightFirst(s);
      } else {
        ReadingsAgree(s[TokenLen(Splitter, s)..]);
        CalmFirst(s);
      }
    }
  }

  /** Slash, star, slash is a whole comment to the splitter. */
  lemma TightIsComment(s: string)
    requires |s| > 3 && s[0] == '/' && s[1] == '*' && s[2] == '/'
    ensures KindOf(s) == Block && TokenLen(Splitter, s) == 3 && s[..3] == TIGHT
  {
    assert s[1..][0] == '*' && s[1..][1] == '/';
  }

  lemma TightFirst(s: string)
    requires |s| > 3 && s[..3] == TIGHT && TokenLen(Splitter, s) != TokenLen(Stripper, s)
    ensures TightComment(Tokens(Splitter, s)) && Tokens(Splitter, s) != Tokens(Stripper, s)
  {
    assert s[0] == s[..3][0] && s[1] == s[..3][1] && s[2] == s[..3][2];
    TightIsComment(s);
    TokensFirst(Splitter, s);
    TokensFirst(Stripper, s);
    TokensFirst(Splitter, s[3..]);
    assert Tokens(Splitter, s)[0] == Token(Block, TIGHT);
    assert |Tokens(Splitter, s)[0].text| == 3 && |Tokens(Stripper, s)[0].text| == TokenLen(Stripper, s);
  }

  lemma CalmFirst(s: string)
    requires s != "" && TokenLen(Splitter, s) == TokenLen(Stripper, s)
    requires !(KindOf(s) == Block && |s| > 3 && s[..3] == TIGHT)
    ensures var rest := s[TokenLen(Splitter, s)..];
      && (Tokens(Splitter, s) == Tokens(Stripper, s) <==> Tokens(Splitter, rest) == Tokens(Stripper, rest))
      && (TightComment(Tokens(Splitter, s)) <==> TightComment(Tokens(Splitter, rest)))
  {
    var n := TokenLen(Splitter, s);
    var t := Token(KindOf(s), s[..n]);
    TokensFirst(Splitter, s);
    TokensFirst(Stripper, s);
    SameTail(t, Tokens(Splitter, s[n..]), Tokens(Stripper, s[n..]));
    TightTail(Tokens(Splitter, s));
    assert Tokens(Splitter, s)[1..] == Tokens(Splitter, s[n..]);
    if t.text == TIGHT && Tokens(Splitter, s[n..]) != [] { assert |s[..n]| == 3 && n < |s|; }
  }

  lemma SameTail<T>(t: T, a: seq<T>, b: seq<T>)
    ensures [t] + a == [t] + b <==> a == b
  {
    assert ([t] + a)[1..] == a && ([t] + b)[1..] == b;
  }

  lemma TightTail(ts: seq<Token>)
    requires ts != []
    ensures TightComment(ts) <==> (ts[0] == Token(Block, TIGHT) && |ts| > 1) || TightComment(ts[1..])
  {
    if TightComment(ts) {
      var k :| 0 <= k < |ts| - 1 && ts[k] == Token(Block, TIGHT);
      assert k > 0 ==> ts[1..][k - 1] == ts[k];
    }
    if TightComment(ts[1..]) {
      var k :| 0 <= k < |ts[1..]| - 1 && ts[1..][k] == Token(Block, TIGHT);
      assert ts[k + 1] == ts[1..][k];
    }
  }

  predicate OccursAt(s: string, t: string, i: nat) {
    i + |t| <= |s| && s[i..i + |t|] == t
  }

  ghost predicate Contains(s: string, t: string) {
    exists i :: OccursAt(s, t, i)
  }

  lemma ContainsLater(s: string, t: string, n: nat)
    requires n <= |s| && Contains(s[n..], t)
    ensures Contains(s, t)
  {
    var i: nat :| OccursAt(s[n..], t, i);
    assert s[n + i..n + i + |t|] == s[n..][i..i + |t|];
    assert OccursAt(s, t, n + i);
  }

  /** A script without the three characters anywhere opens no such comment. */
  lemma {:induction false} NoTightText(r: Reading, s: string)
    requires !Contains(s, TIGHT)
    ensures !TightComment(Tokens(r, s))
    decreases |s|
  {
    if s != "" {
      var n := TokenLen(r, s);
      var ts := Tokens(r, s);
      assert ts[1..] == Tokens(r, s[n..]);
      if Contains(s[n..], TIGHT) { ContainsLater(s, TIGHT, n); }
      NoTightText(r, s[n..]);
      assert s[..n] == s[0..n];
      assert ts[0].text == TIGHT ==> OccursAt(s, TIGHT, 0);
      TightTail(ts);
    }
  }
}
