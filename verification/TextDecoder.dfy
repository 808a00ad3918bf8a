/** The ordered list of notations a slice of a child's log is tried against. */
module TextDecoder {
  import opened Basics
  import opened PrefixCodes
  import opened Utf8

  const NAME_UTF8 := "utf-8"
  const NAME_REPLACE := "replace"
  const CARRY_MAX := 3

  /** What the operating system says about a code page: the longest character and up to six lead-byte ranges. */
  datatype CodePageInfo = CodePageInfo(maxCharSize: nat, leadByte: seq<Byte>)

  /** The strict conversion of a code page is the operating system's and stays a parameter. */
  datatype Candidate =
    | Utf8Candidate
    | CodePageCandidate(name: string, info: CodePageInfo, convert: seq<Byte> -> Option<seq<Byte>>)

  /** substitute is the last-resort reading; how many replacement characters it writes is not specified. */
  datatype Decoder = Decoder(candidates: seq<Candidate>, substitute: seq<Byte> -> seq<Byte>) {
    /** UTF-8 is first on every platform and is never tried twice. */
    predicate Valid() {
      && candidates != []
      && candidates[0].Utf8Candidate?
      && forall k :: 1 <= k < |candidates| ==> candidates[k].CodePageCandidate?
    }
  }

  datatype Verdict = Rejected | Accepted(text: seq<Byte>, consumed: nat)

  datatype Result = Result(text: seq<Byte>, consumed: nat, encoding: string)

  // What each notation accepts.

  /**
   A slice is UTF-8 so far exactly when more bytes could make it well-formed; it accounts for its whole characters.
   */
  ghost function Utf8Verdict(data: seq<Byte>): Verdict {
    if Viable(IsChar, data) then Accepted(data[..Longest(IsChar, data)], Longest(IsChar, data)) else Rejected
  }

  ghost predicate ZeroPair(table: seq<Byte>, k: nat) {
    2 * k + 1 < |table| && table[2 * k] == 0 && table[2 * k + 1] == 0
  }

  ghost predicate CoveredBy(table: seq<Byte>, k: nat, b: Byte) {
    && 2 * k + 1 < |table|
    && table[2 * k] <= b <= table[2 * k + 1]
    && forall j: nat :: j <= k ==> !ZeroPair(table, j)
  }

  /** b lies in one of the low/high pairs before the terminating zero pair. */
  ghost predicate LeadByte(info: CodePageInfo, b: Byte) {
    exists k: nat :: CoveredBy(info.leadByte, k, b)
  }

  /** A character of a code page: a lead byte with any byte after it, or a byte that leads nothing. */
  ghost predicate CodePageChar(info: CodePageInfo, s: seq<Byte>) {
    if info.maxCharSize > 1 && s != [] && LeadByte(info, s[0]) then |s| == 2 else |s| == 1
  }

  ghost function CodePageUnit(info: CodePageInfo): Unit { s => CodePageChar(info, s) }

  ghost function CodePageVerdict(info: CodePageInfo, convert: seq<Byte> -> Option<seq<Byte>>, data: seq<Byte>): Verdict
  {
    var n := Longest(CodePageUnit(info), data);
    if n == 0 then Accepted([], 0)
    else match convert(data[..n])
      case None => Rejected
      case Some(text) => Accepted(text, n)
  }

  ghost function CandidateVerdict(c: Candidate, data: seq<Byte>): Verdict {
    match c
    case Utf8Candidate => Utf8Verdict(data)
    case CodePageCandidate(_, info, convert) => CodePageVerdict(info, convert, data)
  }

  function CandidateName(c: Candidate): string {
    match c
    case Utf8Candidate => NAME_UTF8
    case CodePageCandidate(name, _, _) => name
  }

  function Replace(d: Decoder, data: seq<Byte>): Result {
    Result(d.substitute(data), |data|, NAME_REPLACE)
  }

  /** The first notation that accepts the slice, or the substituting reading. */
  ghost function FirstAccepting(d: Decoder, from: nat, data: seq<Byte>): Result
    requires from <= |d.candidates|
    decreases |d.candidates| - from
  {
    if from == |d.candidates| then Replace(d, data)
    else
      match CandidateVerdict(d.candidates[from], data)
      case Accepted(text, n) => Result(text, n, CandidateName(d.candidates[from]))
      case Rejected => FirstAccepting(d, from + 1, data)
  }

  ghost function Decoded(d: Decoder, data: seq<Byte>): Result {
    if data == [] then Result([], 0, NAME_UTF8) else FirstAccepting(d, 0, data)
  }

  // The scanning loops.

  method PartialUtf8Ok(s: seq<Byte>) returns (ok: bool)
    requires s != []
    ensures ok <==> forall i :: 1 <= i < |s| ==> InRange(s[0], i, s[i])
  {
    for i := 1 to |s|
      invariant forall k :: 1 <= k < i ==> InRange(s[0], k, s[k])
    {
      var (lo, hi) := ContinuationRange(s[0], i);
      if s[i] < lo || s[i] > hi { return false; }
    }
    return true;
  }

  /** Strict UTF-8 over a whole slice. */
  method DecodeUtf8(data: seq<Byte>) returns (text: seq<Byte>, consumed: nat, ok: bool)
    ensures ok <==> Viable(IsChar, data)
    ensures ok ==> IsLongest(IsChar, data, consumed) && text == data[..consumed] && |data| - consumed <= CARRY_MAX
    ensures !ok ==> text == [] && consumed == 0
    ensures (if ok then Accepted(text, consumed) else Rejected) == Utf8Verdict(data)
  {
    Utf8PrefixFree();
    consumed := 0;
    while consumed < |data|
      invariant consumed <= |data|
      invariant WellFormed(data[..consumed])
    {
      ghost var rest := data[consumed..];
      assert data == data[..consumed] + rest;
      ViableAfter(IsChar, data[..consumed], rest);
      var b := data[consumed];
      var need := SequenceLen(b);
      if b < 0x80 {
        TakeChar(data, consumed, 1);
        consumed := consumed + 1;
        continue;
      }
      if need == 0 {
        if Viable(IsChar, rest) { CompleteViable(rest); }
        return [], 0, false;
      }
      if consumed + need > |data| {
        PartialViable(rest);
        var plausible := PartialUtf8Ok(data[consumed..]);
        if !plausible { return [], 0, false; }
        NothingWhole(rest);
        break;
      }
      var p := data[consumed..consumed + need];
      DecodeRuneAccepts(p);
      if DecodeRuneSize(p) != need {
        assert rest[..need] == p;
        if Viable(IsChar, rest) { CompleteViable(rest); }
        return [], 0, false;
      }
      TakeChar(data, consumed, need);
      consumed := consumed + need;
    }
    ghost var rest := data[consumed..];
    assert data == data[..consumed] + rest;
    ViableAfter(IsChar, data[..consumed], rest);
    if rest == [] {
      assert CompletedBy(IsChar, [], []);
      assert IsLongest(IsChar, [], 0);
    }
    LongestAfter(IsChar, data[..consumed], rest, 0);
    LongestUnique(IsChar, data, consumed, Longest(IsChar, data));
    CarryBound(data);
    return data[..consumed], consumed, true;
  }

  lemma TakeChar(data: seq<Byte>, at: nat, n: nat)
    requires at + n <= |data| && n > 0
    requires WellFormed(data[..at]) && IsChar(data[at..at + n])
    ensures WellFormed(data[..at + n])
  {
    SegmentedUnit(IsChar, data[at..at + n]);
    ConcatSegmented(IsChar, data[..at], data[at..at + n]);
    assert data[..at + n] == data[..at] + data[at..at + n];
  }

  /** A slice shorter than its first character holds no whole character. */
  lemma NothingWhole(s: seq<Byte>)
    requires s != [] && |s| < SequenceLen(s[0])
    ensures IsLongest(IsChar, s, 0)
  {
    assert s[..0] == [];
    forall m | 0 < m <= |s|
      ensures !WellFormed(s[..m])
    {
      if WellFormed(s[..m]) {
        var n :| 0 < n <= m && IsChar(s[..m][..n]);
        TablesRefineGrammar(s[..m][..n]);
      }
    }
  }

  method IsLead(info: CodePageInfo, b: Byte) returns (lead: bool)
    ensures lead == LeadByte(info, b)
  {
    var i := 0;
    ghost var k: nat := 0;
    while i + 1 < |info.leadByte|
      invariant i == 2 * k
      invariant forall j: nat :: j < k ==> !ZeroPair(info.leadByte, j) && !CoveredBy(info.leadByte, j, b)
    {
      var lo, hi := info.leadByte[i], info.leadByte[i + 1];
      if lo == 0 && hi == 0 {
        assert ZeroPair(info.leadByte, k);
        return false;
      }
      if lo <= b && b <= hi {
        assert CoveredBy(info.leadByte, k, b);
        return true;
      }
      i := i + 2;
      k := k + 1;
    }
    return false;
  }

  lemma CodePagePrefixFree(info: CodePageInfo)
    ensures PrefixFree(CodePageUnit(info))
  {
    var unit := CodePageUnit(info);
    forall u: seq<Byte>, n | 0 <= n < |u| && unit(u)
      ensures !unit(u[..n])
    {
    }
  }

  lemma TakeCodePageChar(info: CodePageInfo, data: seq<Byte>, at: nat, n: nat)
    requires at + n <= |data| && n > 0
    requires Segmented(CodePageUnit(info), data[..at]) && CodePageChar(info, data[at..at + n])
    ensures Segmented(CodePageUnit(info), data[..at + n])
  {
    var unit := CodePageUnit(info);
    assert unit(data[at..at + n]);
    SegmentedUnit(unit, data[at..at + n]);
    ConcatSegmented(unit, data[..at], data[at..at + n]);
    assert data[..at + n] == data[..at] + data[at..at + n];
  }

  /** A lone lead byte at the end, or nothing at all, is what a scan leaves. */
  lemma CodePageLongest(info: CodePageInfo, data: seq<Byte>, at: nat)
    requires at <= |data| && Segmented(CodePageUnit(info), data[..at])
    requires |data| == at || (|data| == at + 1 && !CodePageChar(info, data[at..]))
    ensures Longest(CodePageUnit(info), data) == at
  {
    var unit := CodePageUnit(info);
    CodePagePrefixFree(info);
    var rest := data[at..];
    assert data == data[..at] + rest;
    assert rest[..0] == [];
    if |rest| == 1 {
      assert rest[..1] == rest;
      assert forall n | 0 < n <= 1 :: !unit(rest[..n]);
    }
    LongestAfter(unit, data[..at], rest, 0);
    LongestUnique(unit, data, at, Longest(unit, data));
  }

  /** Strict reading of a one- or two-byte code page. */
  method DecodeCodePage(info: CodePageInfo, convert: seq<Byte> -> Option<seq<Byte>>, data: seq<Byte>)
    returns (text: seq<Byte>, consumed: nat, ok: bool)
    ensures (if ok then Accepted(text, consumed) else Rejected) == CodePageVerdict(info, convert, data)
    ensures ok ==> IsLongest(CodePageUnit(info), data, consumed) && |data| - consumed <= 1
  {
    var scanned := |data|;
    if info.maxCharSize > 1 {
      scanned := 0;
      while scanned < |data|
        invariant scanned <= |data|
        invariant Segmented(CodePageUnit(info), data[..scanned])
      {
        var lead := IsLead(info, data[scanned]);
        if !lead {
          TakeCodePageChar(info, data, scanned, 1);
          scanned := scanned + 1;
          continue;
        }
        if scanned + 2 > |data| {
          break;
        }
        TakeCodePageChar(info, data, scanned, 2);
        scanned := scanned + 2;
      }
    } else {
      SingleByteSegmented(info, data, |data|);
      assert data[..|data|] == data;
    }
    CodePageLongest(info, data, scanned);
    if scanned == 0 { return [], 0, true; }
    match convert(data[..scanned])
    case None => return [], 0, false;
    case Some(t) => return t, scanned, true;
  }

  lemma {:induction false} SingleByteSegmented(info: CodePageInfo, data: seq<Byte>, n: nat)
    requires info.maxCharSize <= 1 && n <= |data|
    ensures Segmented(CodePageUnit(info), data[..n])
  {
    if n > 0 {
      SingleByteSegmented(info, data, n - 1);
      TakeCodePageChar(info, data, n - 1, 1);
    }
  }

  method TryDecode(c: Candidate, data: seq<Byte>) returns (text: seq<Byte>, consumed: nat, ok: bool)
    ensures (if ok then Accepted(text, consumed) else Rejected) == CandidateVerdict(c, data)
  {
    match c
    case Utf8Candidate => text, consumed, ok := DecodeUtf8(data);
    case CodePageCandidate(_, info, convert) => text, consumed, ok := DecodeCodePage(info, convert, data);
  }

  /** The candidates are tried in order and the first that fits the whole slice wins. */
  method Decode(d: Decoder, data: seq<Byte>) returns (r: Result)
    ensures r == Decoded(d, data)
  {
    if |data| == 0 { return Result([], 0, NAME_UTF8); }
    for i := 0 to |d.candidates|
      invariant FirstAccepting(d, i, data) == FirstAccepting(d, 0, data)
    {
      var text, consumed, ok := TryDecode(d.candidates[i], data);
      if ok { return Result(text, consumed, CandidateName(d.candidates[i])); }
    }
    return Replace(d, data);
  }

  // What a polling reader relies on.

  /** A rejected slice stays rejected whatever is appended; an accepted one is continued by decoding its carry. */
  lemma Utf8Incremental(a: seq<Byte>, b: seq<Byte>)
    ensures Utf8Verdict(a).Rejected? ==> Utf8Verdict(a + b).Rejected?
    ensures Utf8Verdict(a).Accepted? ==>
              var c := Utf8Verdict(a).consumed;
              match Utf8Verdict(a[c..] + b)
              case Rejected => Utf8Verdict(a + b).Rejected?
              case Accepted(t, n) => Utf8Verdict(a + b) == Accepted(Utf8Verdict(a).text + t, c + n)
  {
    Utf8PrefixFree();
    if Viable(IsChar, a + b) { ViablePrefix(IsChar, a, b); }
    if Viable(IsChar, a) {
      var c := Longest(IsChar, a);
      assert a + b == a[..c] + (a[c..] + b);
      ViableAfter(IsChar, a[..c], a[c..] + b);
      LongestIncremental(IsChar, a, b);
      var n := Longest(IsChar, a[c..] + b);
      assert (a + b)[..c + n] == a[..c] + (a[c..] + b)[..n];
    }
  }

  /** The same boundaries are found whether a code page's bytes are scanned at once or carried over. */
  lemma CodePageIncremental(info: CodePageInfo, a: seq<Byte>, b: seq<Byte>)
    ensures var unit := CodePageUnit(info);
            var c := Longest(unit, a);
            |a| - c <= 1 && Longest(unit, a + b) == c + Longest(unit, a[c..] + b)
  {
    CodePagePrefixFree(info);
    LongestIncremental(CodePageUnit(info), a, b);
    CodePageCarry(info, a);
  }

  lemma CodePageCarry(info: CodePageInfo, data: seq<Byte>)
    ensures |data| - Longest(CodePageUnit(info), data) <= 1
  {
    var unit := CodePageUnit(info);
    CodePagePrefixFree(info);
    var c := Longest(unit, data);
    var rest := data[c..];
    if |rest| >= 2 {
      var k := if CodePageChar(info, rest[..2]) then 2 else 1;
      assert unit(rest[..k]);
      SegmentedUnit(unit, rest[..k]);
      CarryHasNoUnit(unit, data, k);
    }
  }

  lemma VerdictCarry(c: Candidate, data: seq<Byte>)
    ensures var v := CandidateVerdict(c, data); v.Accepted? ==> v.consumed <= |data| <= v.consumed + CARRY_MAX
  {
    match c
    case Utf8Candidate => if Viable(IsChar, data) { CarryBound(data); }
    case CodePageCandidate(_, info, _) => CodePageCarry(info, data);
  }

  lemma {:induction false} FirstAcceptingCarry(d: Decoder, from: nat, data: seq<Byte>)
    requires from <= |d.candidates|
    ensures var r := FirstAccepting(d, from, data); r.consumed <= |data| <= r.consumed + CARRY_MAX
    decreases |d.candidates| - from
  {
    if from < |d.candidates| {
      VerdictCarry(d.candidates[from], data);
      if CandidateVerdict(d.candidates[from], data).Rejected? { FirstAcceptingCarry(d, from + 1, data); }
    }
  }

  /** Whatever the candidates, a decode leaves at most three bytes behind. */
  lemma CarryAtMostThree(d: Decoder, data: seq<Byte>)
    ensures var r := Decoded(d, data); r.consumed <= |data| <= r.consumed + CARRY_MAX
  {
    if data != [] { FirstAcceptingCarry(d, 0, data); }
  }

  /** From the second candidate on, a decode leaves at most one byte behind. */
  lemma {:induction false} LaterCandidatesCarry(d: Decoder, from: nat, data: seq<Byte>)
    requires from <= |d.candidates|
    requires forall k :: from <= k < |d.candidates| ==> d.candidates[k].CodePageCandidate?
    ensures |data| <= FirstAccepting(d, from, data).consumed + 1
    decreases |d.candidates| - from
  {
    if from < |d.candidates| {
      CodePageCarry(d.candidates[from].info, data);
      if CandidateVerdict(d.candidates[from], data).Rejected? { LaterCandidatesCarry(d, from + 1, data); }
    }
  }

  /** Bytes left behind by one decode are, offered again on their own, either still unfinished or consumed whole. */
  lemma CarrySettles(d: Decoder, data: seq<Byte>)
    requires d.Valid()
    ensures var carry := data[Min(Decoded(d, data).consumed, |data|)..];
            Decoded(d, carry).consumed == 0 || Decoded(d, carry).consumed == |carry|
  {
    CarryAtMostThree(d, data);
    var r := Decoded(d, data);
    var carry := data[r.consumed..];
    if data != [] && carry != [] {
      if Viable(IsChar, data) {
        Utf8PrefixFree();
        assert data == data[..r.consumed] + carry;
        ViableAfter(IsChar, data[..r.consumed], carry);
        LongestIncremental(IsChar, data, []);
        assert data + [] == data && carry + [] == carry;
        assert Longest(IsChar, carry) == 0;
      } else {
        LaterCandidatesCarry(d, 1, data);
        CarryAtMostThree(d, carry);
      }
    }
  }

  /** Text that can still become well-formed UTF-8 is reported as UTF-8, byte for byte. */
  lemma ViableIsUtf8(d: Decoder, data: seq<Byte>)
    requires d.Valid() && Viable(IsChar, data)
    ensures Decoded(d, data) == Result(data[..Longest(IsChar, data)], Longest(IsChar, data), NAME_UTF8)
  {
    if data != [] {
      assert FirstAccepting(d, 0, data).encoding == NAME_UTF8;
    }
  }

  // Who reads a slice, told without going through the candidates in turn.

  /** A notation fits a slice when it can account for it, up to a character still being written. */
  ghost predicate Fits(c: Candidate, data: seq<Byte>) {
    match c
    case Utf8Candidate => Viable(IsChar, data)
    case CodePageCandidate(_, info, convert) =>
      forall n :: IsLongest(CodePageUnit(info), data, n) && n > 0 ==> convert(data[..n]).Some?
  }

  /** The reading of a slice in a notation: its whole characters, converted, under the notation's name. */
  ghost predicate ReadIn(c: Candidate, data: seq<Byte>, r: Result) {
    match c
    case Utf8Candidate =>
      IsLongest(IsChar, data, r.consumed) && r.text == data[..r.consumed] && r.encoding == "utf-8"
    case CodePageCandidate(name, info, convert) =>
      && IsLongest(CodePageUnit(info), data, r.consumed) && r.encoding == name
      && (if r.consumed == 0 then r.text == [] else convert(data[..r.consumed]) == Some(r.text))
  }

  lemma VerdictFits(c: Candidate, data: seq<Byte>)
    ensures var v := CandidateVerdict(c, data);
      && (v.Accepted? <==> Fits(c, data))
      && (v.Accepted? ==> ReadIn(c, data, Result(v.text, v.consumed, CandidateName(c))))
  {
    match c
    case Utf8Candidate =>
    case CodePageCandidate(_, info, convert) =>
      var unit := CodePageUnit(info);
      forall n | IsLongest(unit, data, n) ensures n == Longest(unit, data) {
        LongestUnique(unit, data, n, Longest(unit, data));
      }
  }

  /** The first notation that fits reads the slice, wherever in the list it stands. */
  lemma {:induction false} FirstFitFrom(d: Decoder, from: nat, k: nat, data: seq<Byte>)
    requires from <= k < |d.candidates| && Fits(d.candidates[k], data)
    requires forall i :: from <= i < k ==> !Fits(d.candidates[i], data)
    ensures ReadIn(d.candidates[k], data, FirstAccepting(d, from, data))
    decreases k - from
  {
    VerdictFits(d.candidates[from], data);
    if from < k { FirstFitFrom(d, from + 1, k, data); }
  }

  lemma FirstFitDecides(d: Decoder, data: seq<Byte>, k: nat)
    requires data != [] && k < |d.candidates| && Fits(d.candidates[k], data)
    requires forall i :: 0 <= i < k ==> !Fits(d.candidates[i], data)
    ensures ReadIn(d.candidates[k], data, Decoded(d, data))
  {
    FirstFitFrom(d, 0, k, data);
  }

  lemma {:induction false} NoneFitsFrom(d: Decoder, from: nat, data: seq<Byte>)
    requires from <= |d.candidates| && forall i :: from <= i < |d.candidates| ==> !Fits(d.candidates[i], data)
    ensures FirstAccepting(d, from, data) == Result(d.substitute(data), |data|, "replace")
    decreases |d.candidates| - from
  {
    if from < |d.candidates| {
      VerdictFits(d.candidates[from], data);
      NoneFitsFrom(d, from + 1, data);
    }
  }

  /** The one that reads a slice, if there is one. */
  lemma {:induction false} FirstFit(d: Decoder, from: nat, data: seq<Byte>) returns (k: Option<nat>)
    requires from <= |d.candidates|
    ensures k.None? ==> forall i :: from <= i < |d.candidates| ==> !Fits(d.candidates[i], data)
    ensures k.Some? ==> from <= k.value < |d.candidates| && Fits(d.candidates[k.value], data)
                        && forall i :: from <= i < k.value ==> !Fits(d.candidates[i], data)
    decreases |d.candidates| - from
  {
    if from == |d.candidates| { return None; }
    if Fits(d.candidates[from], data) { return Some(from); }
    k := FirstFit(d, from + 1, data);
  }

  /** Substitution is the answer, to every byte, exactly when no notation fits. */
  lemma ReplacedIffNoneFits(d: Decoder, data: seq<Byte>)
    requires data != [] && forall c :: c in d.candidates && c.CodePageCandidate? ==> c.name != "replace"
    ensures (forall i :: 0 <= i < |d.candidates| ==> !Fits(d.candidates[i], data))
       <==> Decoded(d, data).encoding == "replace"
    ensures Decoded(d, data).encoding == "replace" ==>
              Decoded(d, data).consumed == |data| && Decoded(d, data).text == d.substitute(data)
  {
    var k := FirstFit(d, 0, data);
    if k.None? { NoneFitsFrom(d, 0, data); } else { FirstFitDecides(d, data, k.value); }
  }
}
