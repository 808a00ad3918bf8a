/** The two scanners of the splitter, the filter between them, and why the startup check covers what is executed. */
module SqlSplitter {
  import opened Basics
  import opened SqlLexing

  datatype ScanState = Normal | SingleQuote | DoubleQuote | BracketName | BacktickName | LineComment | BlockComment

  function Inside(st: ScanState): Kind {
    match st
    case Normal => Plain
    case SingleQuote => Single
    case DoubleQuote => Double
    case BracketName => Bracket
    case BacktickName => Backtick
    case LineComment => Line
    case BlockComment => Block
  }

  /** The rune after position i, or the zero rune at the end. */
  function Following(text: string, i: nat): char
    requires i < |text|
  {
    if i + 1 < |text| then text[i + 1] else '\0'
  }

  /** Inside a construct: how many characters are taken together, and where that leaves the scanner. */
  function React(st: ScanState, ch: char, next: char): (nat, ScanState)
    requires st != Normal
  {
    match st
    case SingleQuote => if ch == '\'' && next == '\'' then (2, st) else (1, if ch == '\'' then Normal else st)
    case DoubleQuote => if ch == '"' && next == '"' then (2, st) else (1, if ch == '"' then Normal else st)
    case BracketName => (1, if ch == ']' then Normal else st)
    case BacktickName => (1, if ch == '`' then Normal else st)
    case LineComment => (1, if ch == '\n' then Normal else st)
    case BlockComment => if ch == '*' && next == '/' then (2, Normal) else (1, st)
  }

  /** Outside every construct: the construct that opens, if any. */
  function Open(ch: char, next: char): ScanState {
    if ch == '\'' then SingleQuote
    else if ch == '"' then DoubleQuote
    else if ch == '[' then BracketName
    else if ch == '`' then BacktickName
    else if ch == '-' && next == '-' then LineComment
    else if ch == '/' && next == '*' then BlockComment
    else Normal
  }

  /** Both scanners open the construct that begins at the front of what is left. */
  lemma OpenKind(rest: string)
    requires rest != ""
    ensures Inside(Open(rest[0], Following(rest, 0))) == if KindOf(rest) == Separator then Plain else KindOf(rest)
    ensures KindOf(rest) == Separator <==> rest[0] == ';'
  {
  }

  /** Both scanners leave a construct where the construct ends. */
  lemma ReactRemaining(st: ScanState, rest: string)
    requires st != Normal && rest != ""
    ensures var (k, to) := React(st, rest[0], Following(rest, 0));
            && 0 < k <= |rest|
            && Remaining(Inside(st), rest) == k + Remaining(Inside(to), rest[k..])
            && (to == LineComment ==> st == LineComment)
  {
  }

  // What stripping leaves.

  /** A quoted run or a comment becomes a space; a finished line comment keeps its line break. */
  function StripToken(t: Token): string {
    match t.kind
    case Plain | Separator => t.text
    case Line => if t.text != "" && t.text[|t.text| - 1] == '\n' then " \n" else " "
    case Single | Double | Bracket | Backtick | Block => " "
  }

  function Strip(s: string): string { Render(StripToken, Tokens(Stripper, s)) }

  function HasExecutableSql(s: string): bool { TrimSpace(Strip(s)) != "" }

  function Executables(pieces: seq<string>): seq<string> {
    if pieces == [] then []
    else
      var last := pieces[|pieces| - 1];
      Executables(pieces[..|pieces| - 1]) + if HasExecutableSql(last) then [last] else []
  }

  /** What the splitter promises: the executable pieces between separators, in order. */
  function StatementsOf(s: string): seq<string> { Executables(RawPieces(s)) }

  // The splitting scanner.

  function Glue(a: string, pieces: seq<string>): seq<string>
    requires pieces != []
  {
    [a + pieces[0]] + pieces[1..]
  }

  /** The pieces of what is left, the first of them already begun. */
  function PiecesFrom(st: ScanState, begun: string, rest: string): seq<string> {
    var n := Remaining(Inside(st), rest);
    Glue(begun + rest[..n], RawPieces(rest[n..]))
  }

  lemma RawPiecesStep(s: string)
    requires s != ""
    ensures var n := TokenLen(Splitter, s);
            RawPieces(s) == if KindOf(s) == Separator then [""] + RawPieces(s[1..]) else Glue(s[..n], RawPieces(s[n..]))
  {
    var n := TokenLen(Splitter, s);
    var t, rest := Token(KindOf(s), s[..n]), Tokens(Splitter, s[n..]);
    assert Tokens(Splitter, s) == [t] + rest && ([t] + rest)[1..] == rest;
    RenderCons(TokenText, t, Groups(rest)[0]);
  }

  lemma PiecesFromStart(s: string)
    ensures PiecesFrom(Normal, "", s) == RawPieces(s)
  {
    var p := RawPieces(s);
    assert s[0..] == s && "" + s[..0] + p[0] == p[0];
    assert [p[0]] + p[1..] == p;
  }

  lemma PiecesFromEnd(st: ScanState, begun: string)
    ensures PiecesFrom(st, begun, "") == [begun]
  {
    assert RawPieces("") == [""];
    assert begun + ""[..0] + "" == begun;
  }

  /** Outside every construct a semicolon ends the piece begun. */
  lemma SeparatorStep(begun: string, rest: string)
    requires rest != "" && KindOf(rest) == Separator
    ensures PiecesFrom(Normal, begun, rest) == [begun] + PiecesFrom(Normal, "", rest[1..])
  {
    RawPiecesStep(rest);
    PiecesFromStart(rest[1..]);
    assert rest[0..] == rest && begun + rest[..0] + "" == begun;
  }

  lemma GlueTwice(a: string, b: string, pieces: seq<string>)
    requires pieces != []
    ensures Glue(a, Glue(b, pieces)) == Glue(a + b, pieces)
  {
    assert a + (b + pieces[0]) == (a + b) + pieces[0];
  }

  lemma PiecesOutside(begun: string, rest: string)
    ensures PiecesFrom(Normal, begun, rest) == Glue(begun, RawPieces(rest))
  {
    assert rest[0..] == rest && begun + rest[..0] == begun;
  }

  lemma TakeFirst(begun: string, rest: string, n: nat)
    requires 0 < n <= |rest|
    ensures begun + rest[..n] == (begun + [rest[0]]) + rest[1..][..n - 1]
    ensures rest[1..][n - 1..] == rest[n..]
  {
    assert rest[..n] == [rest[0]] + rest[1..][..n - 1];
  }

  /** Outside every construct any other character stands alone or opens a construct. */
  lemma NormalStep(begun: string, rest: string, st: ScanState)
    requires rest != "" && KindOf(rest) != Separator && Inside(st) == KindOf(rest)
    ensures PiecesFrom(Normal, begun, rest) == PiecesFrom(st, begun + [rest[0]], rest[1..])
  {
    var n := TokenLen(Splitter, rest);
    PiecesOutside(begun, rest);
    RawPiecesStep(rest);
    GlueTwice(begun, rest[..n], RawPieces(rest[n..]));
    TakeFirst(begun, rest, n);
    assert Remaining(Inside(st), rest[1..]) == n - 1;
  }

  /** Inside a construct: k characters are taken and the construct either goes on or is over. */
  lemma InsideStep(st: ScanState, begun: string, rest: string, k: nat, next: ScanState)
    requires k <= |rest|
    requires Remaining(Inside(st), rest) == k + Remaining(Inside(next), rest[k..])
    ensures PiecesFrom(st, begun, rest) == PiecesFrom(next, begun + rest[..k], rest[k..])
  {
    var m := Remaining(Inside(next), rest[k..]);
    assert rest[k..][m..] == rest[k + m..];
    assert begun + rest[..k + m] == begun + rest[..k] + rest[k..][..m];
  }

  /** At position i the pieces found, the piece begun and what is left still make up the raw pieces of the script. */
  ghost predicate Scanning(text: string, pieces: seq<string>, st: ScanState, buf: string, i: nat) {
    i <= |text| && RawPieces(text) == pieces + PiecesFrom(st, buf, text[i..])
  }

  lemma ScanInside(text: string, pieces: seq<string>, st: ScanState, buf: string, i: nat)
    requires Scanning(text, pieces, st, buf, i) && st != Normal && i < |text|
    ensures var (k, to) := React(st, text[i], Following(text, i));
            && i + k <= |text|
            && Scanning(text, pieces, to, buf + text[i..i + k], i + k)
            && text[i..i + k] == if k == 1 then [text[i]] else [text[i], text[i + 1]]
  {
    var rest := text[i..];
    ReactRemaining(st, rest);
    var (k, to) := React(st, text[i], Following(text, i));
    InsideStep(st, buf, rest, k, to);
    TextSlices(text, i, k);
  }

  lemma TextSlices(text: string, i: nat, k: nat)
    requires i + k <= |text|
    ensures text[i..][..k] == text[i..i + k] && text[i..][k..] == text[i + k..]
  {
  }

  lemma ScanNormal(text: string, pieces: seq<string>, buf: string, i: nat)
    requires Scanning(text, pieces, Normal, buf, i) && i < |text| && text[i] != ';'
    ensures Scanning(text, pieces, Open(text[i], Following(text, i)), buf + [text[i]], i + 1)
  {
    OpenKind(text[i..]);
    NormalStep(buf, text[i..], Open(text[i], Following(text, i)));
    assert text[i..][1..] == text[i + 1..];
  }

  lemma ScanSeparator(text: string, pieces: seq<string>, buf: string, i: nat)
    requires Scanning(text, pieces, Normal, buf, i) && i < |text| && text[i] == ';'
    ensures Scanning(text, pieces + [buf], Normal, "", i + 1)
  {
    SeparatorStep(buf, text[i..]);
    var tail := PiecesFrom(Normal, "", text[i + 1..]);
    assert text[i..][1..] == text[i + 1..];
    assert pieces + ([buf] + tail) == pieces + [buf] + tail;
  }

  method Statements(text: string) returns (statements: seq<string>)
    ensures statements == StatementsOf(text)
  {
    var pieces: seq<string>, buf, st, i := [], "", Normal, 0;
    assert text[0..] == text;
    PiecesFromStart(text);
    while i < |text|
      invariant Scanning(text, pieces, st, buf, i)
    {
      var ch, next := text[i], Following(text, i);
      if st != Normal { ScanInside(text, pieces, st, buf, i); }
      match st {
        case Normal =>
          if ch == '\'' { st := SingleQuote; }
          else if ch == '"' { st := DoubleQuote; }
          else if ch == '[' { st := BracketName; }
          else if ch == '`' { st := BacktickName; }
          else if ch == '-' && next == '-' { st := LineComment; }
          else if ch == '/' && next == '*' { st := BlockComment; }
          else if ch == ';' {
            ScanSeparator(text, pieces, buf, i);
            pieces, buf, i := pieces + [buf], "", i + 1;
            continue;
          }
          ScanNormal(text, pieces, buf, i);
        case SingleQuote =>
          if ch == '\'' && next == '\'' {
            buf, i := buf + "''", i + 2;
            continue;
          }
          if ch == '\'' { st := Normal; }
        case DoubleQuote =>
          if ch == '"' && next == '"' {
            buf, i := buf + "\"\"", i + 2;
            continue;
          }
          if ch == '"' { st := Normal; }
        case BracketName =>
          if ch == ']' { st := Normal; }
        case BacktickName =>
          if ch == '`' { st := Normal; }
        case LineComment =>
          if ch == '\n' { st := Normal; }
        case BlockComment =>
          if ch == '*' && next == '/' {
            buf, i, st := buf + "*/", i + 2, Normal;
            continue;
          }
      }
      buf, i := buf + [ch], i + 1;
    }
    assert text[i..] == "";
    PiecesFromEnd(st, buf);
    pieces := pieces + [buf];
    statements := KeepExecutable(pieces);
  }

  method KeepExecutable(pieces: seq<string>) returns (kept: seq<string>)
    ensures kept == Executables(pieces)
  {
    var out := new string[|pieces|](k requires 0 <= k < |pieces| => pieces[k]);
    assert out[..] == pieces;
    var n := FilterInPlace(out);
    return out[..n];
  }

  /** The kept pieces are moved to the front of the slice they came in. */
  method FilterInPlace(out: array<string>) returns (n: nat)
    modifies out
    ensures n <= out.Length
    ensures out[..n] == Executables(old(out[..]))
  {
    n := 0;
    assert out[..] == out[..out.Length];
    for i := 0 to out.Length
      invariant n <= i
      invariant out[..n] == Executables(old(out[..])[..i])
      invariant forall k :: i <= k < out.Length ==> out[k] == old(out[..])[k]
    {
      var s := out[i];
      var keep := HasExecutable(s);
      assert old(out[..])[..i + 1][..i] == old(out[..])[..i];
      if keep {
        out[n] := s;
        n := n + 1;
        assert out[..n] == out[..n - 1] + [s];
      }
    }
    assert old(out[..])[..out.Length] == old(out[..]);
  }

  method HasExecutable(s: string) returns (b: bool)
    ensures b == HasExecutableSql(s)
  {
    var stripped := StripComments(s);
    return TrimSpace(stripped) != "";
  }

  // The stripping scanner.

  /** f writes the first token and then what is left; the scanner is proved against any such f. */
  ghost predicate Peels(f: string -> string, s: string) {
    f(s) == if s == "" then "" else FirstStripped(s) + f(s[TokenLen(Stripper, s)..])
  }

  function FirstStripped(s: string): string
    requires s != ""
  {
    StripToken(Token(KindOf(s), s[..TokenLen(Stripper, s)]))
  }

  ghost predicate PeelsAll(f: string -> string) { forall s :: Peels(f, s) }

  function Strips(): string -> string { (s: string) => Strip(s) }

  lemma StripStep(s: string)
    requires s != ""
    ensures var n := TokenLen(Stripper, s); Strip(s) == StripToken(Token(KindOf(s), s[..n])) + Strip(s[n..])
  {
    var n := TokenLen(Stripper, s);
    TokensFirst(Stripper, s);
    RenderCons(StripToken, Token(KindOf(s), s[..n]), Tokens(Stripper, s[n..]));
  }

  lemma StripPeels()
    ensures PeelsAll(Strips())
  {
    forall s ensures Peels(Strips(), s) {
      if s != "" { StripStep(s); }
    }
  }

  lemma StripOne(rest: string)
    requires rest != "" && (KindOf(rest) == Separator || KindOf(rest) == Plain)
    ensures Strip(rest) == [rest[0]] + Strip(rest[1..])
  {
    StripStep(rest);
    assert rest[..1] == [rest[0]];
  }

  lemma Regroup(a: string, b: string, c: string)
    ensures a + (b + c) == (a + b) + c
  {
  }

  lemma DropTwice(s: string, o: nat, n: nat)
    requires o <= n <= |s|
    ensures s[o..][n - o..] == s[n..]
  {
  }

  /** What stripping still writes for what is left. */
  function StripFrom(f: string -> string, st: ScanState, rest: string): string {
    var n := Remaining(Inside(st), rest);
    (if st == LineComment && n > 0 && rest[n - 1] == '\n' then "\n" else "") + f(rest[n..])
  }

  lemma StripFromStart(f: string -> string, rest: string)
    ensures StripFrom(f, Normal, rest) == f(rest)
  {
    assert rest[0..] == rest && "" + f(rest) == f(rest);
  }

  lemma StripAlone(f: string -> string, out: string, rest: string)
    requires PeelsAll(f) && rest != "" && (KindOf(rest) == Separator || KindOf(rest) == Plain)
    ensures out + StripFrom(f, Normal, rest) == out + [rest[0]] + StripFrom(f, Normal, rest[1..])
  {
    StripFromStart(f, rest);
    StripFromStart(f, rest[1..]);
    assert Peels(f, rest) && rest[..1] == [rest[0]];
    Regroup(out, [rest[0]], f(rest[1..]));
  }

  lemma OpeningFits(rest: string)
    requires rest != ""
    ensures OpeningLen(Stripper, KindOf(rest)) <= |rest|
  {
  }

  lemma StripOpening(f: string -> string, out: string, rest: string, st: ScanState)
    requires PeelsAll(f) && rest != ""
    requires KindOf(rest) != Separator && KindOf(rest) != Plain && Inside(st) == KindOf(rest)
    ensures OpeningLen(Stripper, Inside(st)) <= |rest|
    ensures out + StripFrom(f, Normal, rest) == (out + " ") + StripFrom(f, st, rest[OpeningLen(Stripper, Inside(st))..])
  {
    OpeningFits(rest);
    StripFromStart(f, rest);
    StripConstruct(f, rest, st);
    Regroup(out, " ", StripFrom(f, st, rest[OpeningLen(Stripper, Inside(st))..]));
  }

  lemma StripConstruct(f: string -> string, rest: string, st: ScanState)
    requires PeelsAll(f) && rest != ""
    requires KindOf(rest) != Separator && KindOf(rest) != Plain && Inside(st) == KindOf(rest)
    ensures f(rest) == " " + StripFrom(f, st, rest[OpeningLen(Stripper, KindOf(rest))..])
  {
    var n, o := TokenLen(Stripper, rest), OpeningLen(Stripper, KindOf(rest));
    assert Peels(f, rest);
    OpeningText(rest, st);
    DropTwice(rest, o, n);
    var left := rest[o..];
    Regroup(" ", if st == LineComment && n - o > 0 && left[n - o - 1] == '\n' then "\n" else "", f(rest[n..]));
  }

  /** A construct's token is written as a space, and a finished line comment's line break after it. */
  lemma OpeningText(rest: string, st: ScanState)
    requires rest != "" && KindOf(rest) != Separator && KindOf(rest) != Plain && Inside(st) == KindOf(rest)
    ensures var n, o := TokenLen(Stripper, rest), OpeningLen(Stripper, KindOf(rest));
            var left := rest[o..];
            && Remaining(Inside(st), left) == n - o
            && FirstStripped(rest)
               == " " + if st == LineComment && n - o > 0 && left[n - o - 1] == '\n' then "\n" else ""
  {
    var n, o := TokenLen(Stripper, rest), OpeningLen(Stripper, KindOf(rest));
    assert rest[..n][n - 1] == rest[n - 1];
    assert n > o ==> rest[o..][n - o - 1] == rest[n - 1];
  }

  lemma StripInside(f: string -> string, out: string, st: ScanState, rest: string, k: nat, next: ScanState)
    requires 0 < k <= |rest| && Remaining(Inside(st), rest) == k + Remaining(Inside(next), rest[k..])
    requires st == LineComment ==> k == 1 && next == if rest[0] == '\n' then Normal else LineComment
    requires next == LineComment ==> st == LineComment
    ensures out + StripFrom(f, st, rest) ==
            (if st == LineComment && rest[0] == '\n' then out + "\n" else out) + StripFrom(f, next, rest[k..])
  {
    DropTwice(rest, k, k + Remaining(Inside(next), rest[k..]));
    if st == LineComment { LineInside(f, out, rest, next); }
  }

  lemma LineInside(f: string -> string, out: string, rest: string, next: ScanState)
    requires rest != "" && Remaining(Line, rest) == 1 + Remaining(Inside(next), rest[1..])
    requires next == if rest[0] == '\n' then Normal else LineComment
    ensures out + StripFrom(f, LineComment, rest) ==
            (if rest[0] == '\n' then out + "\n" else out) + StripFrom(f, next, rest[1..])
  {
    if rest[0] == '\n' { LineEnds(f, out, rest); } else { LineGoesOn(f, rest); }
  }

  lemma LineEnds(f: string -> string, out: string, rest: string)
    requires rest != "" && rest[0] == '\n'
    ensures out + StripFrom(f, LineComment, rest) == (out + "\n") + StripFrom(f, Normal, rest[1..])
  {
    StripFromStart(f, rest[1..]);
    Regroup(out, "\n", f(rest[1..]));
  }

  lemma LineGoesOn(f: string -> string, rest: string)
    requires rest != "" && rest[0] != '\n'
    ensures StripFrom(f, LineComment, rest) == StripFrom(f, LineComment, rest[1..])
  {
    var m := Remaining(Line, rest[1..]);
    DropTwice(rest, 1, 1 + m);
    if m > 0 { assert rest[1..][m - 1] == rest[m]; }
  }

  /** At position i what is written and what is left still make up the stripped script. */
  ghost predicate Stripping(f: string -> string, text: string, out: string, st: ScanState, i: nat) {
    i <= |text| && f(text) == out + StripFrom(f, st, text[i..])
  }

  lemma StrippingMoves(f: string -> string, text: string, out: string, out': string,
                       st: ScanState, st': ScanState, i: nat, k: nat)
    requires Stripping(f, text, out, st, i) && i + k <= |text|
    requires out + StripFrom(f, st, text[i..]) == out' + StripFrom(f, st', text[i..][k..])
    ensures Stripping(f, text, out', st', i + k)
  {
    DropTwice(text, i, i + k);
  }

  lemma StripScanInside(f: string -> string, text: string, out: string, st: ScanState, i: nat)
    requires Stripping(f, text, out, st, i) && st != Normal && i < |text|
    ensures var (k, to) := React(st, text[i], Following(text, i));
            Stripping(f, text, if st == LineComment && text[i] == '\n' then out + "\n" else out, to, i + k)
  {
    var rest := text[i..];
    var (k, to) := React(st, rest[0], Following(rest, 0));
    ReactRemaining(st, rest);
    StripInside(f, out, st, rest, k, to);
    StrippingMoves(f, text, out, if st == LineComment && text[i] == '\n' then out + "\n" else out, st, to, i, k);
  }

  lemma StripScanPlain(f: string -> string, text: string, out: string, i: nat)
    requires PeelsAll(f) && Stripping(f, text, out, Normal, i)
    requires i < |text| && Open(text[i], Following(text, i)) == Normal
    ensures Stripping(f, text, out + [text[i]], Normal, i + 1)
  {
    OpenKind(text[i..]);
    StripAlone(f, out, text[i..]);
    StrippingMoves(f, text, out, out + [text[i]], Normal, Normal, i, 1);
  }

  lemma StripScanOpening(f: string -> string, text: string, out: string, i: nat, st: ScanState)
    requires PeelsAll(f) && Stripping(f, text, out, Normal, i) && i < |text|
    requires st == Open(text[i], Following(text, i)) && st != Normal
    ensures Stripping(f, text, out + " ", st, i + if st == LineComment || st == BlockComment then 2 else 1)
  {
    OpenKind(text[i..]);
    StripOpening(f, out, text[i..], st);
    StrippingMoves(f, text, out, out + " ", Normal, st, i, OpeningLen(Stripper, Inside(st)));
  }

  /** One step of the stripping scanner: what it has written, its state and its position afterwards. */
  function StripNext(text: string, out: string, st: ScanState, i: nat): (string, ScanState, nat)
    requires i < |text|
  {
    if st == Normal then
      var to := Open(text[i], Following(text, i));
      if to == Normal then (out + [text[i]], to, i + 1)
      else (out + " ", to, i + if to == LineComment || to == BlockComment then 2 else 1)
    else
      var (k, to) := React(st, text[i], Following(text, i));
      (if st == LineComment && text[i] == '\n' then out + "\n" else out, to, i + k)
  }

  lemma ReactAdvances(st: ScanState, text: string, i: nat)
    requires st != Normal && i < |text|
    ensures 0 < React(st, text[i], Following(text, i)).0
  {
  }

  lemma StripNextKeeps(f: string -> string, text: string, out: string, st: ScanState, i: nat)
    requires PeelsAll(f) && Stripping(f, text, out, st, i) && i < |text|
    ensures var (o, to, j) := StripNext(text, out, st, i); i < j && Stripping(f, text, o, to, j)
  {
    if st != Normal {
      StripScanInside(f, text, out, st, i);
      ReactAdvances(st, text, i);
    } else if Open(text[i], Following(text, i)) == Normal {
      StripScanPlain(f, text, out, i);
    } else {
      StripScanOpening(f, text, out, i, Open(text[i], Following(text, i)));
    }
  }

  /** The scanner's switch on one character. */
  method StripCharacter(text: string, written: string, state: ScanState, at: nat)
    returns (out: string, st: ScanState, i: nat)
    requires at < |text|
    ensures (out, st, i) == StripNext(text, written, state, at)
  {
    out, st, i := written, state, at;
    var ch, next := text[i], Following(text, i);
    match st {
      case Normal =>
        if ch == '\'' { st, out := SingleQuote, out + " "; }
        else if ch == '"' { st, out := DoubleQuote, out + " "; }
        else if ch == '[' { st, out := BracketName, out + " "; }
        else if ch == '`' { st, out := BacktickName, out + " "; }
        else if ch == '-' && next == '-' { st, i, out := LineComment, i + 1, out + " "; }
        else if ch == '/' && next == '*' { st, i, out := BlockComment, i + 1, out + " "; }
        else { out := out + [ch]; }
      case SingleQuote =>
        if ch == '\'' && next == '\'' { i := i + 1; }
        else if ch == '\'' { st := Normal; }
      case DoubleQuote =>
        if ch == '"' && next == '"' { i := i + 1; }
        else if ch == '"' { st := Normal; }
      case BracketName =>
        if ch == ']' { st := Normal; }
      case BacktickName =>
        if ch == '`' { st := Normal; }
      case LineComment =>
        if ch == '\n' { st, out := Normal, out + "\n"; }
      case BlockComment =>
        if ch == '*' && next == '/' { st, i := Normal, i + 1; }
    }
    i := i + 1;
  }

  method StripComments(text: string) returns (out: string)
    ensures out == Strip(text)
  {
    var st, i := Normal, 0;
    out := "";
    assert text[0..] == text;
    StripPeels();
    StripFromStart(Strips(), text);
    while i < |text|
      invariant Stripping(Strips(), text, out, st, i)
    {
      StripNextKeeps(Strips(), text, out, st, i);
      out, st, i := StripCharacter(text, out, st, i);
    }
    StripEnd(text, out, st, i);
  }

  lemma StripEnd(text: string, out: string, st: ScanState, i: nat)
    requires Stripping(Strips(), text, out, st, i) && i == |text|
    ensures out == Strip(text)
  {
    assert text[i..] == "" && out + "" == out;
  }

  // Words.

  predicate IsWordRune(c: char) { c == '_' || '0' <= c <= '9' || 'a' <= c <= 'z' || 'A' <= c <= 'Z' }

  /** s[i..j] is a word standing alone. */
  predicate WordAt(s: string, i: nat, j: nat) {
    && i < j <= |s|
    && (forall k :: i <= k < j ==> IsWordRune(s[k]))
    && (i == 0 || !IsWordRune(s[i - 1]))
    && (j == |s| || !IsWordRune(s[j]))
  }

  const BEGIN := "begin"

  predicate BeginAt(s: string, i: nat, j: nat) { WordAt(s, i, j) && FoldsTo(s[i..j], BEGIN) }

  ghost predicate HasBegin(s: string) { exists i: nat, j: nat :: BeginAt(s, i, j) }

  /** The script contains BEGIN as a word, outside quotes and comments. */
  ghost predicate Compound(text: string) { HasBegin(Strip(text)) }

  method BareBegin(text: string) returns (b: bool)
    ensures b <==> Compound(text)
  {
    var s := StripComments(text);
    var i := 0;
    while i < |s|
      invariant forall k: nat, j: nat :: k < i ==> !BeginAt(s, k, j)
    {
      if !(IsWordRune(s[i]) && (i == 0 || !IsWordRune(s[i - 1]))) {
        i := i + 1;
        continue;
      }
      var end := i;
      while end < |s| && IsWordRune(s[end])
        invariant i <= end <= |s|
        invariant forall k :: i <= k < end ==> IsWordRune(s[k])
      {
        end := end + 1;
      }
      if FoldsTo(s[i..end], BEGIN) {
        assert BeginAt(s, i, end);
        return true;
      }
      forall k: nat, j: nat | i <= k <= end
        ensures !BeginAt(s, k, j)
      {
        if WordAt(s, k, j) {
          assert k == i && j == end;
        }
      }
      i := end + 1;
    }
    return false;
  }

  // The statements themselves.

  lemma {:induction false} ExecutablesMember(pieces: seq<string>, s: string)
    ensures s in Executables(pieces) <==> s in pieces && HasExecutableSql(s)
  {
    if pieces != [] {
      var n := |pieces| - 1;
      ExecutablesMember(pieces[..n], s);
      assert pieces == pieces[..n] + [pieces[n]];
    }
  }

  /** The executable pieces of two lists in a row are those of the first and then those of the second. */
  lemma {:induction false} ExecutablesConcat(a: seq<string>, b: seq<string>)
    ensures Executables(a + b) == Executables(a) + Executables(b)
  {
    if b == [] {
      assert a + b == a;
    } else {
      var n := |b| - 1;
      SnocConcat(a, b);
      ExecutablesConcat(a, b[..n]);
      Associate(Executables(a), Executables(b[..n]), if HasExecutableSql(b[n]) then [b[n]] else []);
    }
  }

  /** A piece alone is kept or dropped; so pieces are kept in their order, each as often as it stands there. */
  lemma ExecutableAlone(s: string)
    ensures Executables([s]) == if HasExecutableSql(s) then [s] else []
    ensures Executables([]) == []
  {
    assert [s][..0] == [];
  }

  lemma {:induction false} ExecutablesIdempotent(pieces: seq<string>, s: string)
    requires s in Executables(pieces)
    ensures Executables([s]) == [s]
  {
    ExecutablesMember(pieces, s);
    assert [s][..0] == [] && Executables([]) == [];
  }

  /** Splitting a statement again gives that statement. */
  lemma StatementsAreWhole(text: string, s: string)
    requires s in StatementsOf(text)
    ensures StatementsOf(s) == [s]
  {
    ExecutablesMember(RawPieces(text), s);
    var k :| 0 <= k < |RawPieces(text)| && RawPieces(text)[k] == s;
    PieceIsWhole(text, k);
    ExecutablesIdempotent(RawPieces(text), s);
  }
}
