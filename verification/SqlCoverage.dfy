/**
 The startup check looks for BEGIN in a whole script, the store executes its statements one by one. This is how far
 the one covers the other, given that the two scanners do not read every script alike.
 */
module SqlCoverage {
  import opened Basics
  import opened SqlLexing
  import SqlStates
  import opened SqlSplitter

  lemma BeginInFirst(a: string, b: string, i: nat, j: nat)
    requires j <= |a|
    ensures BeginAt(a + ";" + b, i, j) <==> BeginAt(a, i, j)
  {
    var w := a + ";" + b;
    assert forall k :: 0 <= k < |a| ==> w[k] == a[k];
    assert w[|a|] == ';';
    if i <= j { assert w[i..j] == a[i..j]; }
  }

  lemma BeginInSecond(a: string, b: string, i: nat, j: nat)
    ensures BeginAt(a + ";" + b, |a| + 1 + i, |a| + 1 + j) <==> BeginAt(b, i, j)
  {
    var w, o := a + ";" + b, |a| + 1;
    assert forall k :: 0 <= k < |b| ==> w[o + k] == b[k];
    assert w[o - 1] == ';';
    if i < j <= |b| {
      assert w[o + i..o + j] == b[i..j];
      if WordAt(w, o + i, o + j) {
        assert forall k :: i <= k < j ==> b[k] == w[o + k];
      }
    }
  }

  lemma BeginAcrossSeparator(a: string, b: string)
    ensures HasBegin(a + ";" + b) <==> HasBegin(a) || HasBegin(b)
  {
    var w := a + ";" + b;
    if HasBegin(w) {
      var i: nat, j: nat :| BeginAt(w, i, j);
      assert w[|a|] == ';';
      assert j <= |a| || i > |a|;
      if j <= |a| { BeginInFirst(a, b, i, j); } else { BeginInSecond(a, b, i - |a| - 1, j - |a| - 1); }
    }
    if HasBegin(a) {
      var i: nat, j: nat :| BeginAt(a, i, j);
      BeginInFirst(a, b, i, j);
    }
    if HasBegin(b) {
      var i: nat, j: nat :| BeginAt(b, i, j);
      BeginInSecond(a, b, i, j);
    }
  }

  ghost predicate BeginInSome(parts: seq<string>) { exists k :: 0 <= k < |parts| && HasBegin(parts[k]) }

  lemma {:induction false} BeginAcrossJoin(parts: seq<string>)
    requires parts != []
    ensures HasBegin(Join(parts)) <==> BeginInSome(parts)
  {
    if |parts| > 1 {
      BeginAcrossSeparator(parts[0], Join(parts[1..]));
      BeginAcrossJoin(parts[1..]);
      if BeginInSome(parts[1..]) {
        var k :| 0 <= k < |parts[1..]| && HasBegin(parts[1..][k]);
        assert parts[k + 1] == parts[1..][k];
      }
      if BeginInSome(parts) {
        var k :| 0 <= k < |parts| && HasBegin(parts[k]);
        assert k > 0 ==> parts[1..][k - 1] == parts[k];
      }
    } else {
      assert Join(parts) == parts[0];
    }
  }

  function StripAll(pieces: seq<string>): (t: seq<string>)
    ensures |t| == |pieces| && forall k :: 0 <= k < |t| ==> t[k] == Strip(pieces[k])
  {
    seq(|pieces|, k requires 0 <= k < |pieces| => Strip(pieces[k]))
  }

  // Dividing a script at a separator.

  lemma {:induction false} RenderConcat(f: Token -> string, a: seq<Token>, b: seq<Token>)
    ensures Render(f, a + b) == Render(f, a) + Render(f, b)
  {
    if a == [] {
      assert a + b == b;
    } else {
      assert (a + b)[1..] == a[1..] + b;
      RenderConcat(f, a[1..], b);
      Regroup(f(a[0]), Render(f, a[1..]), Render(f, b));
    }
  }

  /** What is stripped around one of the stripper's own separators is stripped on its own. */
  lemma StripDivides(text: string, i: nat)
    requires SeparatorAt(Stripper, text, i)
    ensures i < |text| && Strip(text) == Strip(text[..i]) + ";" + Strip(text[i + 1..])
  {
    TokensDivide(Stripper, text, i);
    var sep := Token(Separator, ";");
    RenderConcat(StripToken, Tokens(Stripper, text[..i]), [sep] + Tokens(Stripper, text[i + 1..]));
    RenderCons(StripToken, sep, Tokens(Stripper, text[i + 1..]));
    Regroup(Strip(text[..i]), ";", Strip(text[i + 1..]));
  }

  function Lead(t: Token, g: seq<seq<Token>>): seq<seq<Token>>
    requires g != []
  {
    if t.kind == Separator then [[]] + g else [[t] + g[0]] + g[1..]
  }

  lemma GroupsLead(t: Token, ts: seq<Token>)
    ensures Groups([t] + ts) == Lead(t, Groups(ts))
  {
    assert ([t] + ts)[1..] == ts;
  }

  lemma LeadConcat(t: Token, g: seq<seq<Token>>, h: seq<seq<Token>>)
    requires g != []
    ensures Lead(t, g + h) == Lead(t, g) + h
  {
    assert (g + h)[1..] == g[1..] + h;
  }

  lemma {:induction false} GroupsConcat(a: seq<Token>, b: seq<Token>)
    ensures Groups(a + ([Token(Separator, ";")] + b)) == Groups(a) + Groups(b)
  {
    var rest := [Token(Separator, ";")] + b;
    GroupsLead(Token(Separator, ";"), b);
    if a == [] {
      assert a + rest == rest;
    } else {
      TokensRegroup(a[0], a[1..], rest);
      assert [a[0]] + a[1..] == a;
      GroupsConcat(a[1..], b);
      GroupsLead(a[0], a[1..] + rest);
      GroupsLead(a[0], a[1..]);
      LeadConcat(a[0], Groups(a[1..]), Groups(b));
    }
  }

  lemma RenderAllConcat(f: Token -> string, g: seq<seq<Token>>, h: seq<seq<Token>>)
    ensures RenderAll(f, g + h) == RenderAll(f, g) + RenderAll(f, h)
  {
  }

  lemma PiecesDivide(text: string, i: nat)
    requires SeparatorAt(Splitter, text, i)
    ensures i < |text| && RawPieces(text) == RawPieces(text[..i]) + RawPieces(text[i + 1..])
  {
    TokensDivide(Splitter, text, i);
    GroupsConcat(Tokens(Splitter, text[..i]), Tokens(Splitter, text[i + 1..]));
    RenderAllConcat(TokenText, Groups(Tokens(Splitter, text[..i])), Groups(Tokens(Splitter, text[i + 1..])));
  }

  /** Every semicolon at which the splitter cuts is one the stripper, too, reads outside quotes and comments. */
  ghost predicate SharedSeparators(text: string) {
    forall i: nat :: SeparatorAt(Splitter, text, i) ==> SeparatorAt(Stripper, text, i)
  }

  /** Two ways of cutting that agree on every script of a class closed under dropping the first piece. */
  lemma {:induction false} CutSame(a: string -> nat, b: string -> nat, sep: string -> bool, calm: string -> bool,
                                   s: string, i: nat)
    requires calm(s) && forall t :: calm(t) && t != "" ==> a(t) == b(t) && (a(t) <= |t| ==> calm(t[a(t)..]))
    ensures CutAt(a, sep, s, i) <==> CutAt(b, sep, s, i)
    decreases |s|
  {
    if s != "" && 0 < a(s) <= i && a(s) <= |s| { CutSame(a, b, sep, calm, s[a(s)..], i - a(s)); }
  }

  function Calm(): string -> bool { (s: string) => !TightComment(Tokens(Splitter, s)) }

  lemma CalmStep(s: string)
    requires Calm()(s) && s != ""
    ensures Lengths(Splitter)(s) == Lengths(Stripper)(s) && Calm()(s[Lengths(Splitter)(s)..])
  {
    var ts := Tokens(Splitter, s);
    TokensFirst(Splitter, s);
    TightTail(ts);
    assert ts[1..] == Tokens(Splitter, s[TokenLen(Splitter, s)..]);
    NotTight(s);
  }

  lemma NotTight(s: string)
    requires s != "" && !TightComment(Tokens(Splitter, s))
    ensures TokenLen(Splitter, s) == TokenLen(Stripper, s)
  {
    TokenLenReadings(s);
    if TokenLen(Splitter, s) != TokenLen(Stripper, s) { TightFirst(s); }
  }

  /** In particular in a script that opens no block comment with slash-star-slash. */
  lemma NoTightShares(text: string)
    requires !TightComment(Tokens(Splitter, text))
    ensures SharedSeparators(text)
  {
    forall t | Calm()(t) && t != ""
      ensures Lengths(Splitter)(t) == Lengths(Stripper)(t)
      ensures Lengths(Splitter)(t) <= |t| ==> Calm()(t[Lengths(Splitter)(t)..])
    {
      CalmStep(t);
    }
    forall i: nat | SeparatorAt(Splitter, text, i) ensures SeparatorAt(Stripper, text, i) {
      CutSame(Lengths(Splitter), Lengths(Stripper), Separates(), Calm(), text, i);
    }
  }

  /** The first piece ends at the first separator. */
  lemma FirstPiece(text: string)
    requires |RawPieces(text)| > 1
    ensures var n := |RawPieces(text)[0]|;
      n < |text| && SeparatorAt(Splitter, text, n)
      && RawPieces(text) == [text[..n]] + RawPieces(text[n + 1..])
  {
    var p := RawPieces(text);
    var n := |p[0]|;
    assert SqlStates.PieceEnd(p, 0) == n;
    SqlStates.CutAtSeparators(text, n);
    PiecesDivide(text, n);
    PiecesJoin(text);
    assert text[..n] == p[0];
    PieceIsWhole(text, 0);
  }

  lemma SharedBehind(text: string, i: nat)
    requires SharedSeparators(text) && SeparatorAt(Splitter, text, i) && i < |text|
    ensures SharedSeparators(text[i + 1..])
  {
    var rest := text[i + 1..];
    forall j: nat | SeparatorAt(Splitter, rest, j) ensures SeparatorAt(Stripper, rest, j) {
      SeparatorBehind(Splitter, text, i, j);
      SeparatorBehind(Stripper, text, i, j);
    }
  }

  lemma OnePieceStrips(text: string)
    requires |RawPieces(text)| == 1
    ensures Strip(text) == Join(StripAll(RawPieces(text)))
  {
    PiecesJoin(text);
    assert StripAll(RawPieces(text)) == [Strip(text)];
  }

  lemma FirstDivision(text: string) returns (n: nat, rest: string)
    requires SharedSeparators(text) && |RawPieces(text)| != 1
    ensures n < |text| && rest == text[n + 1..] && SeparatorAt(Stripper, text, n)
    ensures SharedSeparators(rest) && RawPieces(text) == [text[..n]] + RawPieces(rest)
  {
    FirstPiece(text);
    n := |RawPieces(text)[0]|;
    rest := text[n + 1..];
    SharedBehind(text, n);
  }

  /** Then stripping the whole script is stripping each piece. */
  lemma {:induction false} StripPiecewise(text: string)
    requires SharedSeparators(text)
    ensures Strip(text) == Join(StripAll(RawPieces(text)))
    decreases |text|
  {
    if |RawPieces(text)| == 1 {
      OnePieceStrips(text);
    } else {
      var n, rest := FirstDivision(text);
      StripPiecewise(rest);
      PiecewiseStep(text, n, rest);
    }
  }

  lemma PiecewiseStep(text: string, n: nat, rest: string)
    requires SeparatorAt(Stripper, text, n) && n < |text| && rest == text[n + 1..]
    requires RawPieces(text) == [text[..n]] + RawPieces(rest) && Strip(rest) == Join(StripAll(RawPieces(rest)))
    ensures Strip(text) == Join(StripAll(RawPieces(text)))
  {
    StripDivides(text, n);
    JoinStripped(text[..n], RawPieces(rest));
  }

  lemma JoinStripped(first: string, pieces: seq<string>)
    requires pieces != []
    ensures Join(StripAll([first] + pieces)) == Strip(first) + ";" + Join(StripAll(pieces))
  {
    assert StripAll([first] + pieces) == [Strip(first)] + StripAll(pieces);
    JoinCons(Strip(first), StripAll(pieces));
  }

  lemma JoinCons(first: string, parts: seq<string>)
    requires parts != []
    ensures Join([first] + parts) == first + ";" + Join(parts)
  {
    assert ([first] + parts)[1..] == parts;
  }

  lemma {:induction false} TrimLeftKeeps(s: string, c: char)
    requires c in s && !IsSpace(c)
    ensures c in TrimLeft(s)
  {
    if IsSpace(s[0]) {
      assert s == [s[0]] + s[1..];
      TrimLeftKeeps(s[1..], c);
    }
  }

  lemma {:induction false} TrimRightKeeps(s: string, c: char)
    requires c in s && !IsSpace(c)
    ensures c in TrimRight(s)
  {
    var n := |s| - 1;
    if IsSpace(s[n]) {
      assert s == s[..n] + [s[n]];
      TrimRightKeeps(s[..n], c);
    }
  }

  /** A piece with a word in it is never filtered out. */
  lemma CompoundIsExecutable(s: string)
    requires Compound(s)
    ensures HasExecutableSql(s)
  {
    var i: nat, j: nat :| BeginAt(Strip(s), i, j);
    var c := Strip(s)[i];
    assert IsWordRune(c) && !IsSpace(c);
    TrimLeftKeeps(Strip(s), c);
    TrimRightKeeps(TrimLeft(Strip(s)), c);
  }

  /**
   If the stripper shares the splitter's separators, BEGIN stands outside quotes and comments exactly when it does in
   one of the statements that are executed. The startup check then covers everything that is run.
   */
  lemma StartupCheckCovers(text: string)
    requires SharedSeparators(text)
    ensures Compound(text) <==> exists s :: s in StatementsOf(text) && Compound(s)
  {
    var p := RawPieces(text);
    StripPiecewise(text);
    BeginAcrossJoin(StripAll(p));
    if Compound(text) {
      var k :| 0 <= k < |StripAll(p)| && HasBegin(StripAll(p)[k]);
      CompoundIsExecutable(p[k]);
      ExecutablesMember(p, p[k]);
      assert p[k] in StatementsOf(text) && Compound(p[k]);
    }
    if s :| s in StatementsOf(text) && Compound(s) {
      ExecutablesMember(p, s);
      var k :| 0 <= k < |p| && p[k] == s;
      assert HasBegin(StripAll(p)[k]);
    }
  }

  /** A script free of the three characters is covered. */
  lemma StartupCheckCoversPlainText(text: string)
    requires !Contains(text, TIGHT)
    ensures Compound(text) <==> exists s :: s in StatementsOf(text) && Compound(s)
  {
    NoTightText(Splitter, text);
    NoTightShares(text);
    StartupCheckCovers(text);
  }

  // A statement that begins with BEGIN.

  /** Text in which every character stands for itself. */
  predicate Harmless(w: string) { forall k :: 0 <= k < |w| ==> IsWordRune(w[k]) || w[k] == ' ' }

  /** The script with w written in front of position at. */
  function Inserted(s: string, at: nat, w: string): string
    requires at <= |s|
  {
    s[..at] + (w + s[at..])
  }

  lemma InsertedDrop(s: string, at: nat, w: string, n: nat)
    requires n <= at <= |s|
    ensures Inserted(s, at, w)[n..] == Inserted(s[n..], at - n, w)
    ensures Inserted(s, at, w)[..n] == s[..n]
  {
    assert s[n..][at - n..] == s[at..] && s[n..][..at - n] == s[..at][n..];
  }

  lemma InsertedFront(s: string, w: string)
    ensures Inserted(s, 0, w) == w + s
  {
    assert s[..0] == "" && s[0..] == s;
  }

  lemma InsertedDropAll(s: string, at: nat, w: string, n: nat)
    requires at <= n <= |s|
    ensures Inserted(s, at, w)[n + |w|..] == s[n..]
  {
    assert s[at..][n - at..] == s[n..];
  }

  /** A run that goes past a semicolon goes on through harmless text behind it; one that ended before is unchanged. */
  function Grown(n: nat, at: nat, w: string): nat { if n < at then n else n + |w| }

  lemma {:induction false} QuoteRunGrows(q: char, s: string, at: nat, w: string)
    requires (q == '\'' || q == '"') && Harmless(w) && 0 < at <= |s| && s[at - 1] == ';'
    ensures QuoteRun(q, Inserted(s, at, w)) == Grown(QuoteRun(q, s), at, w)
    decreases |s|
  {
    if at == 1 {
      InsertedDrop(s, 1, w, 1);
      HarmlessQuote(q, w, s[1..]);
      InsertedFront(s[1..], w);
    } else if s[0] != q {
      InsertedDrop(s, at, w, 1);
      QuoteRunGrows(q, s[1..], at - 1, w);
    } else if s[1] == q {
      InsertedDrop(s, at, w, 2);
      QuoteRunGrows(q, s[2..], at - 2, w);
    }
  }

  lemma {:induction false} HarmlessQuote(q: char, w: string, rest: string)
    requires (q == '\'' || q == '"') && Harmless(w)
    ensures QuoteRun(q, w + rest) == |w| + QuoteRun(q, rest)
  {
    if w == "" {
      assert w + rest == rest;
    } else {
      assert (w + rest)[1..] == w[1..] + rest;
      HarmlessQuote(q, w[1..], rest);
    }
  }

  lemma {:induction false} RunGrows(c: char, s: string, at: nat, w: string)
    requires (c == ']' || c == '`' || c == '\n') && Harmless(w) && 0 < at <= |s| && s[at - 1] == ';'
    ensures RunTo(c, Inserted(s, at, w)) == Grown(RunTo(c, s), at, w)
    decreases |s|
  {
    InsertedDrop(s, at, w, 1);
    if at == 1 {
      HarmlessRun(c, w, s[1..]);
      InsertedFront(s[1..], w);
    } else if s[0] != c {
      RunGrows(c, s[1..], at - 1, w);
    }
  }

  lemma {:induction false} HarmlessRun(c: char, w: string, rest: string)
    requires (c == ']' || c == '`' || c == '\n') && Harmless(w)
    ensures RunTo(c, w + rest) == |w| + RunTo(c, rest)
  {
    if w == "" {
      assert w + rest == rest;
    } else {
      assert (w + rest)[1..] == w[1..] + rest;
      HarmlessRun(c, w[1..], rest);
    }
  }

  lemma {:induction false} BlockRunGrows(s: string, at: nat, w: string)
    requires Harmless(w) && 0 < at <= |s| && s[at - 1] == ';'
    ensures BlockRun(Inserted(s, at, w)) == Grown(BlockRun(s), at, w)
    decreases |s|
  {
    InsertedDrop(s, at, w, 1);
    if at == 1 {
      HarmlessBlock(w, s[1..]);
      InsertedFront(s[1..], w);
    } else if !(s[0] == '*' && s[1] == '/') {
      BlockRunGrows(s[1..], at - 1, w);
    }
  }

  lemma {:induction false} HarmlessBlock(w: string, rest: string)
    requires Harmless(w)
    ensures BlockRun(w + rest) == |w| + BlockRun(rest)
  {
    if w == "" {
      assert w + rest == rest;
    } else {
      assert (w + rest)[1..] == w[1..] + rest;
      HarmlessBlock(w[1..], rest);
    }
  }

  lemma RemainingGrows(kind: Kind, s: string, at: nat, w: string)
    requires kind != Plain && kind != Separator
    requires Harmless(w) && 0 < at <= |s| && s[at - 1] == ';'
    ensures Remaining(kind, Inserted(s, at, w)) == Grown(Remaining(kind, s), at, w)
  {
    match kind
    case Single => QuoteRunGrows('\'', s, at, w);
    case Double => QuoteRunGrows('"', s, at, w);
    case Bracket => RunGrows(']', s, at, w);
    case Backtick => RunGrows('`', s, at, w);
    case Line => RunGrows('\n', s, at, w);
    case Block => BlockRunGrows(s, at, w);
  }

  lemma KindStays(s: string, at: nat, w: string)
    requires 0 < at <= |s| && s[at - 1] == ';' && Harmless(w)
    ensures KindOf(Inserted(s, at, w)) == KindOf(s)
    ensures KindOf(s) == Line || KindOf(s) == Block ==> at > 2
    ensures KindOf(s) != Plain && KindOf(s) != Separator ==> at > 1
  {
    var t := Inserted(s, at, w);
    assert t[0] == s[0] && (at > 1 ==> t[1] == s[1]);
  }

  /** The first token of the longer script: the same, or the same construct with the new text in it. */
  lemma TokenGrows(r: Reading, s: string, at: nat, w: string)
    requires Harmless(w) && 0 < at <= |s| && s[at - 1] == ';'
    ensures var t := Inserted(s, at, w);
      KindOf(t) == KindOf(s) &&
      TokenLen(r, t) == if KindOf(s) == Plain || KindOf(s) == Separator then 1 else Grown(TokenLen(r, s), at, w)
  {
    KindStays(s, at, w);
    if KindOf(s) != Plain && KindOf(s) != Separator {
      var o := OpeningLen(r, KindOf(s));
      InsertedDrop(s, at, w, o);
      DropBoth(s, o, at - 1);
      RemainingGrows(KindOf(s), s[o..], at - o, w);
    }
  }

  /** How the first piece of a script changes when w is written behind a semicolon of it. */
  ghost predicate Grows(len: string -> nat, sep: string -> bool, s: string, at: nat, w: string) {
    0 < at <= |s| && s[at - 1] == ';' ==>
      var t := Inserted(s, at, w);
      (sep(t) <==> sep(s)) && len(t) == if sep(s) then len(s) else Grown(len(s), at, w)
  }

  ghost predicate AllGrow(len: string -> nat, sep: string -> bool, w: string) {
    forall s, at: nat :: Grows(len, sep, s, at, w)
  }

  lemma TokensGrow(r: Reading, w: string)
    requires Harmless(w)
    ensures AllGrow(Lengths(r), Separates(), w)
  {
    forall s, at: nat ensures Grows(Lengths(r), Separates(), s, at, w) {
      if 0 < at <= |s| && s[at - 1] == ';' {
        TokenGrows(r, s, at, w);
        PlainIsShort(r, s, at);
      }
    }
  }

  lemma PlainIsShort(r: Reading, s: string, at: nat)
    requires 0 < at <= |s| && s[at - 1] == ';'
    ensures KindOf(s) == Plain || KindOf(s) == Separator ==> TokenLen(r, s) == 1 && (KindOf(s) == Plain ==> at > 1)
  {
  }

  lemma {:induction false} CutStays(len: string -> nat, sep: string -> bool, s: string, at: nat, w: string)
    requires AllGrow(len, sep, w) && 0 < at <= |s| && s[at - 1] == ';' && CutAt(len, sep, s, at - 1)
    requires forall t :: sep(t) ==> len(t) == 1
    ensures CutAt(len, sep, Inserted(s, at, w), at - 1)
    decreases |s|
  {
    assert Grows(len, sep, s, at, w);
    if at - 1 >= len(s) {
      InsertedDrop(s, at, w, len(s));
      CutStays(len, sep, s[len(s)..], at - len(s), w);
    }
  }

  /** A separator is still one when harmless text follows it. */
  lemma SeparatorStays(r: Reading, s: string, at: nat, w: string)
    requires Harmless(w) && 0 < at <= |s| && SeparatorAt(r, s, at - 1)
    ensures SeparatorAt(r, Inserted(s, at, w), at - 1)
  {
    SeparatorIsSemicolon(r, s, at - 1);
    TokensGrow(r, w);
    CutStays(Lengths(r), Separates(), s, at, w);
  }

  /** What f makes of a script: of its first piece, and then of the rest. */
  ghost predicate Piecewise(len: string -> nat, f: string -> string, head: string -> string, s: string) {
    s != "" ==> 0 < len(s) <= |s| && f(s) == head(s) + f(s[len(s)..])
  }

  ghost predicate HeadStays(len: string -> nat, head: string -> string, s: string, at: nat, w: string) {
    0 < at <= |s| && s[at - 1] == ';' && (at <= len(s) ==> len(s) > 1) ==> head(Inserted(s, at, w)) == head(s)
  }

  lemma {:induction false} HiddenInPiece(len: string -> nat, sep: string -> bool, f: string -> string,
                                         head: string -> string, s: string, at: nat, w: string)
    requires AllGrow(len, sep, w) && forall t :: Piecewise(len, f, head, t)
    requires forall t, n: nat :: HeadStays(len, head, t, n, w)
    requires forall t :: (sep(t) ==> len(t) == 1) && (t != "" && len(t) == 1 && t[0] == ';' ==> sep(t))
    requires 0 < at <= |s| && s[at - 1] == ';' && !CutAt(len, sep, s, at - 1)
    ensures f(Inserted(s, at, w)) == f(s)
    decreases |s|
  {
    var t := Inserted(s, at, w);
    assert Grows(len, sep, s, at, w) && Piecewise(len, f, head, s) && Piecewise(len, f, head, t);
    assert HeadStays(len, head, s, at, w);
    if len(s) < at {
      InsertedDrop(s, at, w, len(s));
      HiddenInPiece(len, sep, f, head, s[len(s)..], at - len(s), w);
    } else {
      InsertedDropAll(s, at, w, len(s));
    }
  }

  function Heads(): string -> string {
    (s: string) => if s == "" then "" else StripToken(Token(KindOf(s), s[..TokenLen(Stripper, s)]))
  }

  lemma StripsPiecewise(s: string)
    ensures Piecewise(Lengths(Stripper), Strips(), Heads(), s)
  {
    if s != "" { StripStep(s); }
  }

  lemma HeadsStay(s: string, at: nat, w: string)
    requires Harmless(w)
    ensures HeadStays(Lengths(Stripper), Heads(), s, at, w)
  {
    if 0 < at <= |s| && s[at - 1] == ';' && (at <= TokenLen(Stripper, s) ==> TokenLen(Stripper, s) > 1) {
      FirstStripsSame(s, at, w);
    }
  }

  lemma FirstStripsSame(s: string, at: nat, w: string)
    requires Harmless(w) && 0 < at <= |s| && s[at - 1] == ';'
    requires at <= TokenLen(Stripper, s) ==> TokenLen(Stripper, s) > 1
    ensures FirstStripped(Inserted(s, at, w)) == FirstStripped(s)
  {
    var n := TokenLen(Stripper, s);
    TokenGrows(Stripper, s, at, w);
    PlainIsShort(Stripper, s, at);
    if n < at { InsertedDrop(s, at, w, n); } else { GrownToken(s, at, w, n); }
  }

  /** Behind a semicolon that the stripper reads inside a quote or a comment, harmless text leaves no trace. */
  lemma HiddenLeavesNoTrace(s: string, at: nat, w: string)
    requires Harmless(w) && 0 < at <= |s| && s[at - 1] == ';' && !SeparatorAt(Stripper, s, at - 1)
    ensures Strip(Inserted(s, at, w)) == Strip(s)
  {
    TokensGrow(Stripper, w);
    forall t ensures Piecewise(Lengths(Stripper), Strips(), Heads(), t) { StripsPiecewise(t); }
    forall t, n: nat ensures HeadStays(Lengths(Stripper), Heads(), t, n, w) { HeadsStay(t, n, w); }
    HiddenInPiece(Lengths(Stripper), Separates(), Strips(), Heads(), s, at, w);
  }

  lemma GrownToken(s: string, at: nat, w: string, n: nat)
    requires Harmless(w) && 0 < at <= n <= |s| && s[at - 1] == ';' && KindOf(s) != Plain && KindOf(s) != Separator
    ensures StripToken(Token(KindOf(s), Inserted(s, at, w)[..n + |w|])) == StripToken(Token(KindOf(s), s[..n]))
  {
    var t := Inserted(s, at, w);
    if n > at {
      assert t[n + |w| - 1] == s[n - 1];
    } else if w != "" {
      assert t[n + |w| - 1] == w[|w| - 1];
    }
  }

  lemma HarmlessStrips(w: string, rest: string)
    requires Harmless(w)
    ensures Strip(w + rest) == w + Strip(rest)
  {
    forall c, r | IsWordRune(c) || c == ' ' ensures Strip([c] + r) == [c] + Strip(r) {
      PlainStrips(c, r);
    }
    Passes(Strip, w, rest);
  }

  lemma PlainStrips(c: char, rest: string)
    requires IsWordRune(c) || c == ' '
    ensures Strip([c] + rest) == [c] + Strip(rest)
  {
    var s := [c] + rest;
    assert KindOf(s) == Plain && s[1..] == rest;
    StripOne(s);
  }

  /** A function that passes harmless characters through passes harmless text through. */
  lemma {:induction false} Passes(f: string -> string, w: string, rest: string)
    requires forall c, r :: IsWordRune(c) || c == ' ' ==> f([c] + r) == [c] + f(r)
    requires Harmless(w)
    ensures f(w + rest) == w + f(rest)
    decreases |w|
  {
    if w == "" {
      assert w + rest == rest;
    } else {
      assert w + rest == [w[0]] + (w[1..] + rest);
      Passes(f, w[1..], rest);
      assert [w[0]] + (w[1..] + f(rest)) == w + f(rest);
    }
  }

  function Cuts(): string -> seq<string> { (s: string) => RawPieces(s) }

  /** Harmless characters go into the piece they stand in front of. */
  ghost predicate Glues(p: string -> seq<string>, c: char, rest: string) {
    p(rest) != [] && (IsWordRune(c) || c == ' ' ==> p([c] + rest) == Glue([c], p(rest)))
  }

  lemma CutsGlue(c: char, rest: string)
    ensures Glues(Cuts(), c, rest)
  {
    if IsWordRune(c) || c == ' ' {
      var s := [c] + rest;
      assert s[1..] == rest && s[..1] == [c] && KindOf(s) == Plain;
      RawPiecesStep(s);
    }
  }

  lemma {:induction false} HarmlessGlues(p: string -> seq<string>, w: string, rest: string)
    requires Harmless(w) && forall c, r :: Glues(p, c, r)
    ensures p(rest) != [] && p(w + rest) == Glue(w, p(rest))
  {
    if w == "" {
      assert Glues(p, ' ', rest);
      assert w + rest == rest && "" + p(rest)[0] == p(rest)[0];
    } else {
      assert w + rest == [w[0]] + (w[1..] + rest);
      assert Glues(p, w[0], w[1..] + rest);
      HarmlessGlues(p, w[1..], rest);
      GlueTwice([w[0]], w[1..], p(rest));
      assert [w[0]] + w[1..] == w;
    }
  }

  lemma HarmlessPiece(w: string, rest: string)
    requires Harmless(w)
    ensures RawPieces(w + rest) == Glue(w, RawPieces(rest))
  {
    forall c, r ensures Glues(Cuts(), c, r) { CutsGlue(c, r); }
    HarmlessGlues(Cuts(), w, rest);
  }

  /** Harmless text that begins with the word, and with more behind it. */
  predicate Marker(w: string) { Harmless(w) && |w| > 5 && BeginAt(w, 0, 5) }

  lemma MarkerShows(w: string, rest: string)
    requires Marker(w)
    ensures HasBegin(w + rest)
  {
    var s := w + rest;
    assert forall k :: 0 <= k <= 5 ==> s[k] == w[k];
    assert s[0..5] == w[0..5];
    assert BeginAt(s, 0, 5);
  }

  /** Written at the start of a statement, the marker is executed. */
  lemma MarkerExecutes(text: string, i: nat, w: string)
    requires Marker(w) && SeparatorAt(Splitter, text, i) && i < |text|
    ensures exists s :: s in StatementsOf(Inserted(text, i + 1, w)) && Compound(s)
  {
    var t := Inserted(text, i + 1, w);
    SeparatorStays(Splitter, text, i + 1, w);
    PiecesDivide(t, i);
    InsertedBehind(text, i, w);
    var s := MarkedPiece(text[i + 1..], w);
    assert s in RawPieces(t);
    CompoundIsExecutable(s);
    ExecutablesMember(RawPieces(t), s);
  }

  /** The first piece of marked text is compound. */
  lemma MarkedPiece(rest: string, w: string) returns (s: string)
    requires Marker(w)
    ensures s in RawPieces(w + rest) && Compound(s)
  {
    var more := RawPieces(rest)[0];
    HarmlessPiece(w, rest);
    s := w + more;
    assert RawPieces(w + rest)[0] == s;
    HarmlessStrips(w, more);
    MarkerShows(w, Strip(more));
  }

  lemma InsertedBehind(text: string, i: nat, w: string)
    requires i < |text|
    ensures Inserted(text, i + 1, w)[i + 1..] == w + text[i + 1..]
  {
  }

  /**
   Exactly where the check looks. A BEGIN at the start of a statement is executed, as above; the check, if it passes the
   script without it, fires if and only if the stripper shares the separator in front of it.
   */
  lemma CheckSeesStart(text: string, i: nat, w: string)
    requires Marker(w) && SeparatorAt(Splitter, text, i)
    ensures i < |text| && (Compound(Inserted(text, i + 1, w)) <==> Compound(text) || SeparatorAt(Stripper, text, i))
  {
    SeparatorIsSemicolon(Splitter, text, i);
    if SeparatorAt(Stripper, text, i) {
      MarkerSeen(text, i, w);
    } else {
      MarkerHidden(text, i, w);
    }
  }

  lemma MarkerHidden(text: string, i: nat, w: string)
    requires Harmless(w) && i < |text| && text[i] == ';' && !SeparatorAt(Stripper, text, i)
    ensures Compound(Inserted(text, i + 1, w)) <==> Compound(text)
  {
    HiddenLeavesNoTrace(text, i + 1, w);
  }

  lemma MarkerSeen(text: string, i: nat, w: string)
    requires Marker(w) && SeparatorAt(Stripper, text, i) && i < |text|
    ensures Compound(Inserted(text, i + 1, w))
  {
    var t := Inserted(text, i + 1, w);
    SeparatorStays(Stripper, text, i + 1, w);
    StripDivides(t, i);
    InsertedBehind(text, i, w);
    HarmlessStrips(w, text[i + 1..]);
    MarkerShows(w, Strip(text[i + 1..]));
    BeginAcrossSeparator(Strip(t[..i]), w + Strip(text[i + 1..]));
  }

  /** The check sees the marker at the start of every statement. */
  ghost predicate SeesEveryStart(text: string, w: string) {
    forall i: nat :: SeparatorAt(Splitter, text, i) ==> i < |text| && Compound(Inserted(text, i + 1, w))
  }

  /** So the check covers the start of every statement of a script it passes exactly when the separators are shared. */
  lemma EveryStartSeenIff(text: string, w: string)
    requires Marker(w) && !Compound(text)
    ensures SharedSeparators(text) <==> SeesEveryStart(text, w)
  {
    if SharedSeparators(text) {
      forall i: nat | SeparatorAt(Splitter, text, i) ensures i < |text| && Compound(Inserted(text, i + 1, w)) {
        CheckSeesStart(text, i, w);
      }
    }
    if SeesEveryStart(text, w) {
      forall i: nat | SeparatorAt(Splitter, text, i) ensures SeparatorAt(Stripper, text, i) {
        CheckSeesStart(text, i, w);
      }
    }
  }

  // Where the check falls short.

  lemma {:induction false} CommentBody(w: string, rest: string)
    requires '*' !in w
    ensures BlockRun(w + ("*/" + rest)) == |w| + 2
  {
    if w == "" {
      assert w + ("*/" + rest) == "*/" + rest;
    } else {
      assert (w + ("*/" + rest))[1..] == w[1..] + ("*/" + rest);
      CommentBody(w[1..], rest);
    }
  }

  const ESCAPED := "BEGIN*/"
  const ESCAPING := "/*/;BEGIN*/"

  lemma OneComment(s: string)
    requires s != "" && KindOf(s) == Block && TokenLen(Stripper, s) == |s|
    ensures !Compound(s)
  {
    StripStep(s);
    assert s[|s|..] == "" && Strip(s) == " ";
    assert forall i: nat, j: nat :: WordAt(" ", i, j) ==> IsWordRune(" "[i]);
  }

  lemma EscapingIsOneComment()
    ensures !Compound(ESCAPING)
  {
    LongComment(ESCAPING, "/;BEGIN");
  }

  lemma LongComment(s: string, w: string)
    requires '*' !in w && s == "/*" + (w + ("*/" + ""))
    ensures !Compound(s)
  {
    CommentBody(w, "");
    assert s[2..] == w + ("*/" + "");
    OneComment(s);
  }

  lemma TwoPieces(s: string, n: nat, tail: string)
    requires s != "" && KindOf(s) != Separator && TokenLen(Splitter, s) == n < |s|
    requires s[n] == ';' && s[n + 1..] == tail && ';' !in tail
    ensures RawPieces(s) == [s[..n], tail]
  {
    RawPiecesStep(s);
    AfterSeparator(s[n..], tail);
    GluePair(s[..n], tail);
  }

  lemma GluePair(a: string, b: string)
    ensures Glue(a, ["", b]) == [a, b]
  {
    assert a + "" == a;
    assert ["", b][1..] == [b];
  }

  lemma AfterSeparator(s: string, tail: string)
    requires s != "" && s[0] == ';' && s[1..] == tail && ';' !in tail
    ensures RawPieces(s) == ["", tail]
  {
    RawPiecesStep(s);
    NoSemicolonOnePiece(tail);
  }

  lemma EscapingSplits(s: string)
    requires |s| > 3 && s[0] == '/' && s[1] == '*' && s[2] == '/' && s[3] == ';' && ';' !in s[4..]
    ensures RawPieces(s) == [TIGHT, s[4..]]
  {
    TightIsComment(s);
    TwoPieces(s, 3, s[4..]);
  }

  lemma StarStrips(s: string)
    requires s != "" && s[0] == '*'
    ensures Strip(s) != "" && Strip(s)[0] == '*'
  {
    StripOne(s);
  }

  lemma BeginThenStar(w: string, tail: string)
    requires Harmless(w) && |w| == 5 && BeginAt(w, 0, 5) && tail != "" && tail[0] == '*'
    ensures Compound(w + tail)
  {
    var rest := Strip(tail);
    StarStrips(tail);
    HarmlessStrips(w, tail);
    assert (w + rest)[0..5] == w[0..5];
    assert BeginAt(w + rest, 0, 5);
  }

  lemma EscapedIsCompound()
    ensures Compound(ESCAPED)
  {
    assert BeginAt("BEGIN", 0, 5);
    BeginThenStar("BEGIN", "*/");
    assert ESCAPED == "BEGIN" + "*/";
  }

  /** To the stripper this script is one comment; the splitter ends the comment early and a bare BEGIN is executed. */
  lemma TightCommentEscapes()
    ensures !Compound(ESCAPING)
    ensures ESCAPED in StatementsOf(ESCAPING) && Compound(ESCAPED)
  {
    EscapingRuns();
    EscapingIsOneComment();
    EscapedIsCompound();
  }

  lemma EscapingRuns()
    ensures Compound(ESCAPED) ==> ESCAPED in StatementsOf(ESCAPING)
  {
    assert ESCAPING[4..] == ESCAPED;
    assert ESCAPING[..3] == TIGHT && ESCAPING[3] == ';';
    EscapedExecutes(ESCAPING, ESCAPED);
  }

  lemma EscapedExecutes(s: string, tail: string)
    requires |s| > 3 && s[..3] == TIGHT && s[3] == ';' && ';' !in tail && s[4..] == tail
    ensures Compound(tail) ==> tail in StatementsOf(s)
  {
    assert s[0] == s[..3][0] && s[1] == s[..3][1] && s[2] == s[..3][2];
    EscapingSplits(s);
    if Compound(tail) { CompoundIsExecutable(tail); }
    ExecutablesMember([TIGHT, tail], tail);
  }

  // Stripping piece by piece without sharing separators.

  lemma {:induction false} QuoteBody(w: string)
    requires '\'' !in w
    ensures QuoteRun('\'', w + "'") == |w| + 1
  {
    if w == "" {
      assert w + "'" == "'";
    } else {
      assert (w + "'")[1..] == w[1..] + "'";
      QuoteBody(w[1..]);
    }
  }

  /** A script that is one quoted run or one block comment to the stripper. */
  lemma StripsToSpace(s: string)
    requires s != "" && (KindOf(s) == Single || KindOf(s) == Block) && TokenLen(Stripper, s) == |s|
    ensures Strip(s) == " "
  {
    StripStep(s);
    assert s[|s|..] == "";
  }

  lemma OneQuote(s: string, w: string)
    requires s == "'" + (w + "'") && '\'' !in w
    ensures Strip(s) == " " && RawPieces(s) == [s]
  {
    QuoteBody(w);
    assert s[1..] == w + "'";
    StripsToSpace(s);
    RawPiecesStep(s);
    assert s[|s|..] == "" && s[..|s|] == s && RawPieces("") == [""];
    assert Glue(s, [""]) == [s + ""] && s + "" == s;
  }

  lemma TightAlone()
    ensures Strip(TIGHT) == " " && RawPieces(TIGHT) == [TIGHT]
  {
    assert TIGHT[2..] == "/";
    StripsToSpace(TIGHT);
    NoSemicolonOnePiece(TIGHT);
  }

  /** A construct, a separator and a construct, as the stripper reads them. */
  lemma TwoSpaces(s: string, n: nat)
    requires n < |s| && s[n] == ';' && SeparatorAt(Stripper, s, n) && Strip(s[..n]) == " " && Strip(s[n + 1..]) == " "
    ensures Strip(s) == " " + ";" + " "
  {
    StripDivides(s, n);
  }

  /** Where the first token is followed by a semicolon, that is a separator. */
  lemma SeparatorAfterFirst(r: Reading, s: string, n: nat)
    requires s != "" && n == TokenLen(r, s) < |s| && s[n] == ';'
    ensures SeparatorAt(r, s, n)
  {
    SeparatorHere(r, s, n);
    SeparatorHere(r, s[n..], 0);
  }

  lemma NotInsideFirst(r: Reading, s: string, i: nat)
    requires s != "" && 0 < i < TokenLen(r, s)
    ensures !SeparatorAt(r, s, i)
  {
    SeparatorHere(r, s, i);
  }

  /**
   Sharing the separators is not necessary for stripping to go piece by piece: here each scanner finds one separator, at
   different places, and both ways leave two blanks around a semicolon.
   */
  lemma PiecewiseByAccident(b: string, s: string)
    requires '*' !in b && '\'' !in b && s == "/*/;" + ("'" + (b + "*/;'"))
    ensures Strip(s) == Join(StripAll(RawPieces(s))) && !SharedSeparators(s)
  {
    var q := "'" + (b + "*/;'");
    assert s[..3] == TIGHT && s[3] == ';' && s[4..] == q;
    TightIsComment(s);
    SeparatorAfterFirst(Splitter, s, 3);
    AccidentPieces(s, q, b);
    AccidentStrips(b, s);
    AccidentHides(b, s);
  }

  lemma AccidentPieces(s: string, q: string, b: string)
    requires |s| > 3 && s[..3] == TIGHT && s[3] == ';' && s[4..] == q && SeparatorAt(Splitter, s, 3)
    requires '\'' !in b && q == "'" + (b + "*/;'")
    ensures Join(StripAll(RawPieces(s))) == " " + ";" + " "
  {
    AccidentQuote(q, b);
    TightAlone();
    PiecesDivide(s, 3);
    TwoStripped(TIGHT, q);
  }

  lemma AccidentQuote(q: string, b: string)
    requires '\'' !in b && q == "'" + (b + "*/;'")
    ensures Strip(q) == " " && RawPieces(q) == [q]
  {
    assert b + "*/;'" == (b + "*/;") + "'";
    OneQuote(q, b + "*/;");
  }

  lemma TwoStripped(a: string, b: string)
    requires Strip(a) == " " && Strip(b) == " "
    ensures Join(StripAll([a] + [b])) == " " + ";" + " "
  {
    assert StripAll([a] + [b]) == [" ", " "];
    JoinTwo(" ", " ");
  }

  lemma JoinTwo(a: string, b: string)
    ensures Join([a, b]) == a + ";" + b
  {
    assert [a, b][1..] == [b];
  }

  /** To the stripper the script begins with one long comment. */
  lemma AccidentComment(b: string, s: string, rest: string)
    requires '*' !in b && s == "/*/;'" + (b + ("*/" + rest))
    ensures KindOf(s) == Block && TokenLen(Stripper, s) == |b| + 7
  {
    var w := "/;'" + b;
    assert s[2..] == w + ("*/" + rest);
    CommentBody(w, rest);
  }

  lemma AccidentHides(b: string, s: string)
    requires '*' !in b && s == "/*/;" + ("'" + (b + "*/;'"))
    ensures !SeparatorAt(Stripper, s, 3)
  {
    assert s == "/*/;'" + (b + ("*/" + ";'"));
    AccidentComment(b, s, ";'");
    NotInsideFirst(Stripper, s, 3);
  }

  lemma AccidentStrips(b: string, s: string)
    requires '*' !in b && s == "/*/;" + ("'" + (b + "*/;'"))
    ensures Strip(s) == " " + ";" + " "
  {
    var n := |b| + 7;
    assert s == "/*/;'" + (b + ("*/" + ";'"));
    AccidentComment(b, s, ";'");
    SeparatorAfterFirst(Stripper, s, n);
    assert s[..n] == "/*/;'" + (b + ("*/" + ""));
    AccidentComment(b, s[..n], "");
    StripsToSpace(s[..n]);
    assert s[n + 1..] == "'";
    LoneQuote();
    TwoSpaces(s, n);
  }

  lemma LoneQuote()
    ensures Strip("'") == " "
  {
    assert "'"[1..] == "";
    StripsToSpace("'");
  }
}
