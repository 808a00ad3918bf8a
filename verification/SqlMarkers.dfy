/** The word that marks a compound statement, told by the script itself: no stripping, no tokens. */
module SqlMarkers {
  import opened Basics
  import opened SqlLexing
  import opened SqlStates
  import opened SqlSplitter
  import opened SqlVisible

  /** A letter of ASCII, a digit or an underscore. */
  predicate InWord(c: char) { c == '_' || IsDigit(c) || 'a' <= Lower(c) <= 'z' }

  /** The five letters stand at i, in any case, and are not part of a longer name. */
  predicate StandsAlone(s: string, i: nat) {
    && i + 5 <= |s| && FoldsTo(s[i..i + 5], "begin")
    && (i > 0 ==> !InWord(s[i - 1])) && (i + 5 < |s| ==> !InWord(s[i + 5]))
  }

  /** The marker is found exactly where the word stands alone in what stripping leaves. */
  lemma CompoundIffAlone(text: string)
    ensures Compound(text) <==> exists i: nat :: StandsAlone(Strip(text), i)
  {
    var s := Strip(text);
    if HasBegin(s) {
      var i: nat, j: nat :| BeginAt(s, i, j);
      assert j == i + 5 && StandsAlone(s, i);
    }
    if i: nat :| StandsAlone(s, i) {
      var w := s[i..i + 5];
      forall k | i <= k < i + 5 ensures IsWordRune(s[k]) {
        assert w[k - i] == s[k] && Lower(w[k - i]) == "begin"[k - i];
      }
      assert BeginAt(s, i, i + 5);
    }
  }

  lemma {:induction false} NameStrips(s: string)
    requires forall i :: 0 <= i < |s| ==> InWord(s[i])
    ensures Strip(s) == s
    decreases |s|
  {
    if s == "" {
      assert Strip(s) == "";
    } else {
      NameFirst(s);
      NameStrips(s[1..]);
      assert s == s[..1] + s[1..];
    }
  }

  lemma NameFirst(s: string)
    requires s != "" && InWord(s[0])
    ensures Strip(s) == s[..1] + Strip(s[1..])
  {
    StripFirst(s);
    assert KindOf(s) == Plain && TokenLen(Stripper, s) == 1;
  }

  /** A single name is the marker only if it is that word: begin_at and beginning are not. */
  lemma NameIsMarker(s: string)
    requires forall i :: 0 <= i < |s| ==> InWord(s[i])
    ensures Compound(s) <==> FoldsTo(s, "begin")
  {
    NameStrips(s);
    CompoundIffAlone(s);
    if i: nat :| StandsAlone(s, i) {
      assert i == 0 && i + 5 == |s|;
      assert s[i..i + 5] == s;
    }
    if FoldsTo(s, "begin") {
      assert s[0..5] == s && StandsAlone(s, 0);
    }
  }

  // Where the word stands in the script.

  /** The word begins here, with or without a word character in front. */
  predicate WordHere(prev: bool, s: string) {
    !prev && |s| >= 5 && FoldsTo(s[..5], "begin") && (|s| > 5 ==> !InWord(s[5]))
  }

  function Before(prev: bool, s: string, i: nat): bool
    requires i <= |s|
  {
    if i == 0 then prev else InWord(s[i - 1])
  }

  predicate BeginsAt(prev: bool, s: string, i: nat)
    requires i <= |s|
  {
    WordHere(Before(prev, s, i), s[i..])
  }

  ghost predicate HasWord(prev: bool, s: string) { exists i: nat :: i <= |s| && BeginsAt(prev, s, i) }

  predicate MarkerAt(q: State, prev: bool, s: string, i: nat)
    requires i <= |s|
  {
    BeginsAt(prev, s, i) && ShowsAt(q, s, i)
  }

  ghost predicate HasMarker(q: State, prev: bool, s: string) { exists i: nat :: i <= |s| && MarkerAt(q, prev, s, i) }

  lemma BeginsLater(prev: bool, s: string, n: nat, i: nat)
    requires n + i <= |s|
    ensures BeginsAt(prev, s, n + i) == BeginsAt(Before(prev, s, n), s[n..], i)
  {
    assert s[n + i..] == s[n..][i..];
  }

  lemma HasWordFrom(prev: bool, s: string, n: nat)
    requires n <= |s|
    ensures HasWord(prev, s) <==>
            (exists i: nat :: i < n && BeginsAt(prev, s, i)) || HasWord(Before(prev, s, n), s[n..])
  {
    if i: nat :| i <= |s| && BeginsAt(prev, s, i) {
      if i >= n { BeginsLater(prev, s, n, i - n); }
    }
    if j: nat :| j <= |s[n..]| && BeginsAt(Before(prev, s, n), s[n..], j) {
      BeginsLater(prev, s, n, j);
      assert BeginsAt(prev, s, n + j);
    }
  }

  lemma MarkerLater(q: State, prev: bool, s: string, n: nat, i: nat)
    requires n + i <= |s|
    ensures MarkerAt(q, prev, s, n + i) == MarkerAt(Run(q, s[..n]), Before(prev, s, n), s[n..], i)
  {
    BeginsLater(prev, s, n, i);
    ShowsLater(q, s, n, i);
  }

  lemma HasMarkerFrom(q: State, prev: bool, s: string, n: nat)
    requires n <= |s|
    ensures HasMarker(q, prev, s) <==>
            (exists i: nat :: i < n && MarkerAt(q, prev, s, i)) || HasMarker(Run(q, s[..n]), Before(prev, s, n), s[n..])
  {
    if i: nat :| i <= |s| && MarkerAt(q, prev, s, i) {
      if i >= n { MarkerLater(q, prev, s, n, i - n); }
    }
    if j: nat :| j <= |s[n..]| && MarkerAt(Run(q, s[..n]), Before(prev, s, n), s[n..], j) {
      MarkerLater(q, prev, s, n, j);
      assert MarkerAt(q, prev, s, n + j);
    }
  }

  /** How far the word that begins s reaches. */
  function WordLen(s: string): (n: nat)
    ensures n <= |s|
    ensures forall i :: 0 <= i < n ==> InWord(s[i])
    ensures n < |s| ==> !InWord(s[n])
  {
    if s != "" && InWord(s[0]) then 1 + WordLen(s[1..]) else 0
  }

  lemma WordHereLen(prev: bool, s: string)
    ensures WordHere(prev, s) <==> !prev && WordLen(s) == 5 && FoldsTo(s[..5], "begin")
  {
    if WordHere(prev, s) {
      forall i | 0 <= i < 5 ensures InWord(s[i]) {
        assert s[..5][i] == s[i] && Lower(s[..5][i]) == "begin"[i];
      }
    }
  }

  lemma WordLenCons(c: char, z: string)
    requires InWord(c)
    ensures WordLen([c] + z) == 1 + WordLen(z) && ([c] + z)[..1 + WordLen(z)] == [c] + z[..WordLen(z)]
  {
    assert ([c] + z)[1..] == z;
  }

  /** Stripping leaves a word at the front as it is and makes none longer. */
  lemma {:induction false} WordStays(s: string)
    ensures var n := WordLen(s); WordLen(Strip(s)) == n && Strip(s)[..n] == s[..n]
    decreases |s|
  {
    if s != "" && InWord(s[0]) {
      NameFirst(s);
      WordStays(s[1..]);
      WordLenCons(s[0], Strip(s[1..]));
      WordLenCons(s[0], s[1..]);
      assert s[..1] == [s[0]] && [s[0]] + s[1..] == s;
    } else {
      NoWordStays(s);
    }
  }

  lemma NoWordStays(s: string)
    requires s == "" || !InWord(s[0])
    ensures WordLen(s) == 0 == WordLen(Strip(s))
  {
    if s == "" {
      assert Strip(s) == "";
    } else {
      StripFirst(s);
      TokenStripsToNoWord(s);
    }
  }

  /** The first token of what does not begin with a word leaves something that does not, either. */
  lemma TokenStripsToNoWord(s: string)
    requires s != "" && !InWord(s[0])
    ensures var a := StripToken(Token(KindOf(s), s[..TokenLen(Stripper, s)])); a != "" && !InWord(a[0])
  {
  }

  lemma {:induction false} QuoteRunEnds(q: char, s: string)
    requires QuoteRun(q, s) < |s|
    ensures QuoteRun(q, s) > 0 && s[QuoteRun(q, s) - 1] == q
    decreases |s|
  {
    if s[0] != q {
      QuoteRunEnds(q, s[1..]);
    } else if |s| > 1 && s[1] == q {
      QuoteRunEnds(q, s[2..]);
    }
  }

  lemma {:induction false} RunToEnds(c: char, s: string)
    requires RunTo(c, s) < |s|
    ensures RunTo(c, s) > 0 && s[RunTo(c, s) - 1] == c
    decreases |s|
  {
    if s[0] != c { RunToEnds(c, s[1..]); }
  }

  lemma {:induction false} BlockRunEnds(s: string)
    requires BlockRun(s) < |s|
    ensures BlockRun(s) > 0 && s[BlockRun(s) - 1] == '/'
    decreases |s|
  {
    if !(|s| > 1 && s[0] == '*' && s[1] == '/') { BlockRunEnds(s[1..]); }
  }

  /** No construct ends with a word character. */
  lemma ConstructEnds(s: string)
    requires s != "" && KindOf(s) != Plain && KindOf(s) != Separator && TokenLen(Stripper, s) < |s|
    ensures !InWord(s[TokenLen(Stripper, s) - 1])
  {
    var o := OpeningLen(Stripper, KindOf(s));
    match KindOf(s)
    case Single => QuoteRunEnds('\'', s[o..]);
    case Double => QuoteRunEnds('"', s[o..]);
    case Bracket => RunToEnds(']', s[o..]);
    case Backtick => RunToEnds('`', s[o..]);
    case Line => RunToEnds('\n', s[o..]);
    case Block => BlockRunEnds(s[o..]);
  }

  /** A plain character: the word begins at it in the script exactly when it does in what stripping leaves. */
  lemma PlainMarks(q: State, prev: bool, s: string)
    requires s != "" && Ready(q, s) && (KindOf(s) == Plain || KindOf(s) == Separator)
    ensures MarkerAt(q, prev, s, 0) <==> BeginsAt(prev, Strip(s), 0)
  {
    var z := Strip(s);
    WordStays(s);
    WordHereLen(prev, s);
    WordHereLen(prev, z);
    PlainShows(q, s);
    assert s[0..] == s && z[0..] == z;
    if WordHere(prev, s) { assert InWord(s[0]); }
  }

  /** A construct becomes space, in which no word begins and behind which one may. */
  lemma SpaceMarks(prev: bool, a: string, z: string)
    requires a == " " || a == " \n"
    ensures HasWord(prev, a + z) <==> HasWord(false, z)
  {
    HasWordFrom(prev, a + z, |a|);
    assert (a + z)[|a|..] == z;
    forall i: nat | i < |a| ensures !BeginsAt(prev, a + z, i) {
      assert (a + z)[i..][0] == a[i];
      WordHereLen(Before(prev, a + z, i), (a + z)[i..]);
    }
  }

  lemma NoWordInNothing(q: State, prev: bool)
    ensures !HasWord(prev, "") && !HasMarker(q, prev, "")
  {
  }

  lemma {:induction false} MarkersAgree(q: State, prev: bool, s: string)
    requires s != "" ==> Ready(q, s)
    ensures HasWord(prev, Strip(s)) <==> HasMarker(q, prev, s)
    decreases |s|
  {
    if s == "" {
      assert Strip(s) == "";
      NoWordInNothing(q, prev);
    } else if KindOf(s) == Plain || KindOf(s) == Separator {
      PlainAgrees(q, prev, s);
      MarkersAgree(Run(q, s[..1]), InWord(s[0]), s[1..]);
    } else {
      var n := TokenLen(Stripper, s);
      ConstructAgrees(q, prev, s);
      MarkersAgree(Run(q, s[..n]), false, s[n..]);
    }
  }

  lemma WordFirstOrLater(prev: bool, c: char, z: string)
    ensures HasWord(prev, [c] + z) <==> BeginsAt(prev, [c] + z, 0) || HasWord(InWord(c), z)
  {
    HasWordFrom(prev, [c] + z, 1);
    assert ([c] + z)[1..] == z;
  }

  lemma MarkerFirstOrLater(q: State, prev: bool, s: string)
    requires s != ""
    ensures HasMarker(q, prev, s) <==> MarkerAt(q, prev, s, 0) || HasMarker(Run(q, s[..1]), InWord(s[0]), s[1..])
  {
    HasMarkerFrom(q, prev, s, 1);
  }

  lemma PlainAgrees(q: State, prev: bool, s: string)
    requires s != "" && Ready(q, s) && (KindOf(s) == Plain || KindOf(s) == Separator)
    ensures |s| > 1 ==> Ready(Run(q, s[..1]), s[1..])
    ensures HasWord(InWord(s[0]), Strip(s[1..])) == HasMarker(Run(q, s[..1]), InWord(s[0]), s[1..]) ==>
              HasWord(prev, Strip(s)) == HasMarker(q, prev, s)
  {
    PlainShows(q, s);
    PlainMarks(q, prev, s);
    PlainStrips(s);
    WordFirstOrLater(prev, s[0], Strip(s[1..]));
    MarkerFirstOrLater(q, prev, s);
  }

  lemma PlainStrips(s: string)
    requires s != "" && (KindOf(s) == Plain || KindOf(s) == Separator)
    ensures Strip(s) == [s[0]] + Strip(s[1..])
  {
    StripFirst(s);
    assert s[..1] == [s[0]];
  }

  lemma ConstructAgrees(q: State, prev: bool, s: string)
    requires s != "" && Ready(q, s) && KindOf(s) != Plain && KindOf(s) != Separator
    ensures var n := TokenLen(Stripper, s);
      && (n < |s| ==> Ready(Run(q, s[..n]), s[n..]))
      && (HasWord(prev, Strip(s)) <==> HasWord(false, Strip(s[n..])))
      && (HasMarker(q, prev, s) <==> HasMarker(Run(q, s[..n]), false, s[n..]))
  {
    var n := TokenLen(Stripper, s);
    ConstructHides(q, s);
    StripFirst(s);
    SpaceMarks(prev, StripToken(Token(KindOf(s), s[..n])), Strip(s[n..]));
    HasMarkerFrom(q, prev, s, n);
    if n < |s| {
      ConstructEnds(s);
    } else {
      NoWordInNothing(Run(q, s[..n]), Before(prev, s, n));
      NoWordInNothing(Run(q, s[..n]), false);
    }
  }

  /**
   The check fires exactly when the five letters stand somewhere in the script, in any case, outside quoted runs and
   comments, and neither preceded nor followed by a letter, a digit or an underscore.
   */
  lemma CompoundIffWritten(text: string)
    ensures Compound(text) <==> exists i: nat :: StandsAlone(text, i) && VisibleAt(text, i)
  {
    CompoundIffAlone(text);
    MarkersAgree(Code, false, text);
    AloneIsWord(Strip(text));
    if i: nat :| i <= |text| && MarkerAt(Code, false, text, i) {
      assert text[i..][..5] == text[i..i + 5];
      assert StandsAlone(text, i) && VisibleAt(text, i);
    }
    if i: nat :| StandsAlone(text, i) && VisibleAt(text, i) {
      assert text[i..][..5] == text[i..i + 5];
      assert MarkerAt(Code, false, text, i);
    }
  }

  lemma AloneIsWord(s: string)
    ensures HasWord(false, s) <==> exists i: nat :: StandsAlone(s, i)
  {
    if i: nat :| i <= |s| && BeginsAt(false, s, i) {
      assert s[i..][..5] == s[i..i + 5];
      assert StandsAlone(s, i);
    }
    if i: nat :| StandsAlone(s, i) {
      assert s[i..][..5] == s[i..i + 5];
      assert BeginsAt(false, s, i);
    }
  }
}
