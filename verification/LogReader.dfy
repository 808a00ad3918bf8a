/** Answering one log query: where to start, how much to read, how much of it to report. */
module LogReader {
  import opened Basics
  import opened PrefixCodes
  import opened Utf8
  import opened TextDecoder

  const LOG_TAIL_DEFAULT_BYTES := 262144
  const LOG_RESPONSE_MAX_BYTES := 1048576
  const LOG_TAIL_WINDOW_MAX_BYTES := 1048576
  const LOG_LINE_SCAN_LIMIT_BYTES := 65536
  const INT64_LIMIT: int := 0x8000_0000_0000_0000
  const LF: Byte := 10

  datatype LogView = LogView(text: seq<Byte>, startOffset: nat, nextOffset: nat, size: nat,
                             truncated: bool, reset: bool, encoding: string)

  const EMPTY_VIEW := LogView([], 0, 0, 0, false, false, NAME_UTF8)

  /** The log file as each access of one query finds it: the child may be appending in between. */
  datatype Accesses = Unreadable | Accesses(atStat: seq<Byte>, atPeek: seq<Byte>, atScan: seq<Byte>, atRead: seq<Byte>)

  /** os.File.ReadAt */
  function ReadAt(file: seq<Byte>, offset: nat, n: nat): (b: seq<Byte>)
    ensures |b| <= n
  {
    if offset >= |file| then [] else file[offset..Min(offset + n, |file|)]
  }

  /** bytes.IndexByte, with None for -1 */
  function IndexOf(s: seq<Byte>, b: Byte): (i: Option<nat>)
    ensures i.Some? ==> i.value < |s| && s[i.value] == b && forall j :: 0 <= j < i.value ==> s[j] != b
    ensures i.None? ==> forall j :: 0 <= j < |s| ==> s[j] != b
  {
    if s == [] then None
    else if s[0] == b then Some(0)
    else match IndexOf(s[1..], b)
      case None => None
      case Some(k) => Some(k + 1)
  }

  // The offset parameter.

  datatype Offset = Tail | TailWindow(window: nat) | Absolute(position: nat)

  /** strconv.ParseInt(s, 10, 64), with None for its errors */
  function ParseInt64(s: string): (n: Option<int>)
    ensures n.Some? ==> -INT64_LIMIT <= n.value < INT64_LIMIT
  {
    var signed := s != "" && (s[0] == '+' || s[0] == '-');
    var digits := if signed then s[1..] else s;
    if digits == "" || !AllDigits(digits) then None
    else
      var n: int := if signed && s[0] == '-' then -(Numeral(digits) as int) else Numeral(digits) as int;
      if -INT64_LIMIT <= n < INT64_LIMIT then Some(n) else None
  }

  const TAIL := "tail"
  const TAIL_PREFIX := "tail:"

  function ClassifyOffset(param: string): Offset {
    var value := TrimSpace(param);
    if value == "" then Tail
    else if FoldsTo(value, TAIL) then Tail
    else if |value| > |TAIL_PREFIX| && FoldsTo(value[..|TAIL_PREFIX|], TAIL_PREFIX) then
      match ParseInt64(value[|TAIL_PREFIX|..])
      case None => Tail
      case Some(n) => if n < 1 then Tail else TailWindow(Min(n, LOG_TAIL_WINDOW_MAX_BYTES))
    else
      match ParseInt64(value)
      case None => Tail
      case Some(n) => if n < 0 then Tail else Absolute(n)
  }

  // Where the read starts.

  function AdvanceToLineStart(a: Accesses, pos: nat, size: nat): (start: nat)
    requires a.Accesses? && 0 < pos <= size
    ensures pos <= start <= size
  {
    if ReadAt(a.atPeek, pos - 1, 1) == [LF] then pos
    else
      match IndexOf(ReadAt(a.atScan, pos, Min(size - pos, LOG_LINE_SCAN_LIMIT_BYTES)), LF)
      case None => pos
      case Some(i) => pos + i + 1
  }

  function TailStart(a: Accesses, window: nat, size: nat): (start: nat)
    requires a.Accesses?
    ensures start <= size
  {
    if size <= window then 0 else AdvanceToLineStart(a, size - window, size)
  }

  function ResolveStart(a: Accesses, param: string, size: nat): (r: (nat, bool))
    requires a.Accesses?
    ensures r.0 <= size
  {
    match ClassifyOffset(param)
    case Absolute(position) =>
      if position > size then (TailStart(a, LOG_TAIL_DEFAULT_BYTES, size), true) else (position, false)
    case TailWindow(window) => (TailStart(a, window, size), false)
    case Tail => (TailStart(a, LOG_TAIL_DEFAULT_BYTES, size), false)
  }

  // The answer.

  /** The bytes a query reads: from its start to the size it saw, capped, and no further than the file still reaches. */
  function Slice(a: Accesses, start: nat): seq<Byte>
    requires a.Accesses? && start <= |a.atStat|
  {
    ReadAt(a.atRead, start, Min(|a.atStat| - start, LOG_RESPONSE_MAX_BYTES))
  }

  /** A slice of which nothing can be reported is held back while the child lives and substituted once it is gone. */
  ghost function Reported(d: Decoder, data: seq<Byte>, running: bool): Result {
    var r := Decoded(d, data);
    if r.consumed == 0 && !running then Replace(d, data) else r
  }

  /** The answer for a read that starts at the given position. */
  ghost function ViewAt(d: Decoder, a: Accesses, start: nat, reset: bool, running: bool): (v: LogView)
    requires a.Accesses? && start <= |a.atStat|
    ensures start == v.startOffset <= v.nextOffset <= v.size == |a.atStat|
  {
    var size := |a.atStat|;
    var data := Slice(a, start);
    CarryAtMostThree(d, data);
    if data == [] then LogView([], start, start, size, false, reset, NAME_UTF8)
    else
      var r := Reported(d, data, running);
      LogView(r.text, start, start + r.consumed, size, start + |data| < size, reset, r.encoding)
  }

  ghost function ViewOf(d: Decoder, a: Accesses, param: string, running: bool): LogView {
    if a.Unreadable? then EMPTY_VIEW
    else
      var (start, reset) := ResolveStart(a, param, |a.atStat|);
      ViewAt(d, a, start, reset, running)
  }

  method ReadLog(d: Decoder, known: bool, a: Accesses, param: string, running: bool)
    returns (view: LogView, found: bool)
    ensures found == known
    ensures known ==> view == ViewOf(d, a, param, running)
  {
    if !known { return EMPTY_VIEW, false; }
    if a.Unreadable? { return EMPTY_VIEW, true; }
    var size := |a.atStat|;
    var (start, reset) := ResolveStart(a, param, size);
    view := LogView([], start, start, size, false, reset, NAME_UTF8);
    found := true;
    var readLen := size - start;
    if readLen > LOG_RESPONSE_MAX_BYTES { readLen := LOG_RESPONSE_MAX_BYTES; }
    if readLen <= 0 { return; }
    var data := ReadAt(a.atRead, start, readLen);
    if |data| <= 0 { return; }
    view := view.(truncated := start + |data| < size);
    var res := Decode(d, data);
    if res.consumed == 0 && !running { res := Replace(d, data); }
    view := view.(text := res.text, nextOffset := start + res.consumed, encoding := res.encoding);
  }

  // What the offset parameter means.

  lemma {:induction false} TrimRightKeeps(s: string)
    requires s == "" || !IsSpace(s[|s| - 1])
    ensures TrimRight(s) == s
  {
  }

  lemma DecimalClassifies(n: nat)
    requires n < INT64_LIMIT
    ensures ClassifyOffset(Decimal(n)) == Absolute(n)
  {
    var s := Decimal(n);
    DecimalNumeral(n);
    assert forall i :: 0 <= i < |s| ==> IsDigit(s[i]) && !IsSpace(s[i]);
    assert TrimLeft(s) == s && TrimRight(s) == s;
    assert !IsSpace(s[0]) && Lower(s[0]) != 't';
    assert s[0] != '+' && s[0] != '-';
  }

  /** A position reported to a client comes back as decimal text and resolves to that very position. */
  lemma EchoIsExact(d: Decoder, a: Accesses, n: nat, running: bool)
    requires a.Accesses? && n <= |a.atStat| && n < INT64_LIMIT
    ensures ViewOf(d, a, Decimal(n), running) == ViewAt(d, a, n, false, running)
  {
    DecimalClassifies(n);
  }

  /**
   A parameter names a position exactly when, trimmed, it is a non-negative 64-bit number; all else is a tail read.
   */
  lemma AbsoluteIffNumber(param: string)
    ensures var n := ParseInt64(TrimSpace(param));
            match ClassifyOffset(param)
            case Absolute(position) => n == Some(position)
            case _ => n.None? || n.value < 0
  {
    var value := TrimSpace(param);
    if ParseInt64(value).Some? {
      assert value != "";
      assert Lower(value[0]) != TAIL[0] && TAIL[0] == TAIL_PREFIX[0];
      assert |value| > |TAIL_PREFIX| ==> value[..|TAIL_PREFIX|][0] == value[0];
    }
  }

  /** What a client sends resets it exactly when, trimmed, it is a 64-bit number beyond the end of the file. */
  lemma ResetIffBeyondEnd(d: Decoder, a: Accesses, param: string, running: bool)
    requires a.Accesses?
    ensures var n := ParseInt64(TrimSpace(param));
            ViewOf(d, a, param, running).reset <==> n.Some? && n.value > |a.atStat|
  {
    AbsoluteIffNumber(param);
  }

  // Where a tail read starts.

  /** The file may grow while the query looks for a line start, and does not shrink. */
  predicate Growing(a: Accesses) { a.Accesses? && a.atStat <= a.atPeek && a.atStat <= a.atScan }

  predicate NoLineFeed(file: seq<Byte>, from: nat, to: nat)
    requires to <= |file|
  {
    forall k :: from <= k < to ==> file[k] != LF
  }

  /**
   A tail of a file: the beginning of a file no larger than the window; otherwise a line start no further than the scan
   limit past the raw position with no line feed in between, or, when there is none within the limit, the raw position.
   */
  predicate TailBegins(file: seq<Byte>, window: nat, start: nat)
    requires window > 0
  {
    if |file| <= window then start == 0
    else
      var raw := |file| - window;
      && raw <= start <= |file| && start <= raw + 65536
      && (|| (file[start - 1] == LF
              && (start == raw || (file[raw - 1] != LF && NoLineFeed(file, raw, start - 1))))
          || (start == raw && NoLineFeed(file, raw - 1, Min(|file|, raw + 65536))))
  }

  /**
   On a file that is at most appended to meanwhile, a tail read of a positive window starts where its tail begins. What
   the file holds is judged by its bytes when the query measured it.
   */
  lemma TailStartShape(a: Accesses, window: nat)
    requires Growing(a) && window > 0
    ensures TailBegins(a.atStat, window, TailStart(a, window, |a.atStat|))
  {
    var file, size := a.atStat, |a.atStat|;
    if size > window {
      var raw := size - window;
      assert ReadAt(a.atPeek, raw - 1, 1) == [file[raw - 1]];
      var buf := ReadAt(a.atScan, raw, Min(window, LOG_LINE_SCAN_LIMIT_BYTES));
      assert forall j :: 0 <= j < |buf| ==> buf[j] == file[raw + j];
      if file[raw - 1] != LF {
        match IndexOf(buf, LF)
        case None =>
          forall k | raw <= k < raw + |buf|
            ensures file[k] != LF
          {
            assert buf[k - raw] == file[k];
          }
        case Some(i) =>
          forall k | raw <= k < raw + i
            ensures file[k] != LF
          {
            assert buf[k - raw] == file[k];
          }
      }
    }
  }

  /** What a trimmed parameter of the form tail:<n> asks for, when n is a 64-bit number. */
  function TailRequest(value: string): Option<int> {
    if |value| > 5 && FoldsTo(value[..5], "tail:") then ParseInt64(value[5..]) else None
  }

  /**
   Where a query begins, for every parameter: at the position it names, as long as the file reaches it; at the tail of
   the size it asks for, up to the largest window; and in every other case at the default tail.
   */
  lemma QueryBegins(d: Decoder, a: Accesses, param: string, running: bool)
    requires Growing(a)
    ensures var value := TrimSpace(param);
      var position, tail := ParseInt64(value), TailRequest(value);
      var start := ViewOf(d, a, param, running).startOffset;
      if position.Some? && 0 <= position.value <= |a.atStat| then start == position.value
      else if tail.Some? && tail.value >= 1 then TailBegins(a.atStat, Min(tail.value, 1048576), start)
      else TailBegins(a.atStat, 262144, start)
  {
    AbsoluteIffNumber(param);
    TailStartShape(a, 262144);
    var tail := TailRequest(TrimSpace(param));
    if tail.Some? && tail.value >= 1 {
      TailIsNoNumber(TrimSpace(param));
      TailStartShape(a, Min(tail.value, 1048576));
    }
  }

  lemma TailIsNoNumber(value: string)
    requires |value| > 5 && FoldsTo(value[..5], "tail:")
    ensures value != "" && !FoldsTo(value, "tail") && ParseInt64(value).None?
  {
    assert Lower(value[..5][0]) == 't' && value[..5][0] == value[0];
  }

  /** An absent parameter, the word in any case, and anything that is neither a number nor a tail request. */
  lemma DefaultTail(d: Decoder, a: Accesses, param: string, running: bool)
    requires Growing(a)
    requires var value := TrimSpace(param);
      || value == "" || FoldsTo(value, "tail")
      || (ParseInt64(value).None? && TailRequest(value).None?)
    ensures TailBegins(a.atStat, 262144, ViewOf(d, a, param, running).startOffset)
  {
    QueryBegins(d, a, param, running);
    var value := TrimSpace(param);
    assert FoldsTo(value, "tail") ==> Lower(value[0]) == 't';
  }

  /** tail:<n> in decimal. A number beyond 64 bits is no number. */
  lemma TailWindowOf(d: Decoder, a: Accesses, n: nat, running: bool)
    requires Growing(a) && n >= 1
    ensures TailBegins(a.atStat, if n < INT64_LIMIT then Min(n, 1048576) else 262144,
                       ViewOf(d, a, "tail:" + Decimal(n), running).startOffset)
  {
    var param := "tail:" + Decimal(n);
    assert forall i :: 0 <= i < |Decimal(n)| ==> IsDigit(Decimal(n)[i]);
    assert param[0] == 't' && param[|param| - 1] == Decimal(n)[|Decimal(n)| - 1];
    assert TrimLeft(param) == param && TrimRight(param) == param;
    assert param[..5] == "tail:" && param[5..] == Decimal(n);
    ParsesDecimals(n);
    TailIsNoNumber(param);
    QueryBegins(d, a, param, running);
  }

  function Within64(n: int): Option<int> {
    if -0x8000_0000_0000_0000 <= n < 0x8000_0000_0000_0000 then Some(n) else None
  }

  /** Decimal text is read exactly within 64 bits, with or without a sign. */
  lemma ParsesDecimals(n: nat)
    ensures ParseInt64(Decimal(n)) == Within64(n)
    ensures ParseInt64("+" + Decimal(n)) == Within64(n)
    ensures ParseInt64("-" + Decimal(n)) == Within64(0 - n)
  {
    var s := Decimal(n);
    DecimalNumeral(n);
    assert IsDigit(s[0]) && s[0] != '+' && s[0] != '-';
    assert ("+" + s)[1..] == s && ("-" + s)[1..] == s;
  }

  /** Nothing but digits after an optional sign is a number. */
  lemma ParsesOnlyDigits(s: string)
    requires ParseInt64(s).Some?
    ensures var digits := if s[0] == '+' || s[0] == '-' then s[1..] else s;
      digits != "" && AllDigits(digits)
  {
  }

  /** A line start in UTF-8 text never cuts a character. */
  lemma LineStartIsBoundary(file: seq<Byte>, start: nat)
    requires 0 < start <= |file| && file[start - 1] == LF
    requires Viable(IsChar, file)
    ensures WellFormed(file[..start])
  {
    AsciiBoundary(file, start - 1);
  }

  // What one answer reports.

  /** An answer moves forward, lags an uncapped read by at most three bytes, and stalls only on those. */
  lemma StallIsShort(d: Decoder, a: Accesses, start: nat, reset: bool, running: bool)
    requires a.Accesses? && start <= |a.atStat| <= |a.atRead|
    ensures var v := ViewAt(d, a, start, reset, running);
            && (!v.truncated ==> v.size - v.nextOffset <= 3)
            && (v.truncated <==> v.size - start > 1048576)
            && (v.truncated ==> v.nextOffset >= start + 1048576 - 3)
            && (v.nextOffset == start ==> v.size - start <= if running then 3 else 0)
  {
    CarryAtMostThree(d, Slice(a, start));
  }

  /** Bytes that can still become whole characters and hold none yet, or the lead byte of a two-byte character. */
  ghost predicate Unfinished(data: seq<Byte>) {
    (Viable(IsChar, data) && Longest(IsChar, data) == 0) || |data| == 1
  }

  /** While the child lives, what an answer that consumes nothing leaves behind is unfinished. */
  lemma StallIsUnfinished(d: Decoder, a: Accesses, start: nat, reset: bool)
    requires d.Valid() && a.Accesses? && start <= |a.atStat|
    requires ViewAt(d, a, start, reset, true).nextOffset == start && Slice(a, start) != []
    ensures Unfinished(Slice(a, start))
  {
    var data := Slice(a, start);
    if Viable(IsChar, data) {
      ViableIsUtf8(d, data);
    } else {
      LaterCandidatesCarry(d, 1, data);
    }
  }

  /**
   What an answer says: the size, and of the bytes from its start, as far as the size and the response limit go, the
   reading of the first notation that fits them. If none does, or a notation fits but finds no whole character and the
   child is gone, all of them are reported with substitutions.
   */
  lemma AnswerReads(d: Decoder, a: Accesses, start: nat, reset: bool, running: bool)
    requires a.Accesses? && start < |a.atStat| && a.atStat <= a.atRead
    ensures var v := ViewAt(d, a, start, reset, running);
      var data := a.atStat[start..Min(|a.atStat|, start + 1048576)];
      var r := Result(v.text, v.nextOffset - start, v.encoding);
      if exists k: nat :: Reader(d, data, k) then
        exists k: nat :: Reader(d, data, k) &&
          (if Lingers(d.candidates[k], data) && !running then Substituted(d, data, r)
           else ReadIn(d.candidates[k], data, r))
      else Substituted(d, data, r)
  {
    var v := ViewAt(d, a, start, reset, running);
    var data := a.atStat[start..Min(|a.atStat|, start + 1048576)];
    assert Slice(a, start) == data;
    var k := FirstFit(d, 0, data);
    if k.None? {
      NoneFitsFrom(d, 0, data);
    } else {
      FirstFitDecides(d, data, k.value);
      LingersIff(d.candidates[k.value], data, Decoded(d, data));
      assert Reader(d, data, k.value);
    }
  }

  /** Where there is nothing to read, or nothing to read from, the answer is empty UTF-8 text and moves nobody. */
  lemma NothingRead(d: Decoder, a: Accesses, param: string, start: nat, reset: bool, running: bool)
    ensures a.Unreadable? ==> ViewOf(d, a, param, running) == LogView([], 0, 0, 0, false, false, "utf-8")
    ensures a.Accesses? && start <= |a.atStat| && (start == |a.atStat| || start >= |a.atRead|) ==>
              ViewAt(d, a, start, reset, running) == LogView([], start, start, |a.atStat|, false, reset, "utf-8")
  {
  }

  /** The notation that reads a slice. */
  ghost predicate Reader(d: Decoder, data: seq<Byte>, k: nat) {
    k < |d.candidates| && Fits(d.candidates[k], data) && forall i :: 0 <= i < k ==> !Fits(d.candidates[i], data)
  }

  /** The slice holds no whole character of the notation. */
  ghost predicate Lingers(c: Candidate, data: seq<Byte>) {
    match c
    case Utf8Candidate => IsLongest(IsChar, data, 0)
    case CodePageCandidate(_, info, _) => IsLongest(CodePageUnit(info), data, 0)
  }

  predicate Substituted(d: Decoder, data: seq<Byte>, r: Result) {
    r.text == d.substitute(data) && r.consumed == |data| && r.encoding == "replace"
  }

  lemma LingersIff(c: Candidate, data: seq<Byte>, r: Result)
    requires ReadIn(c, data, r)
    ensures Lingers(c, data) <==> r.consumed == 0
  {
    if Lingers(c, data) {
      match c
      case Utf8Candidate => LongestUnique(IsChar, data, 0, r.consumed);
      case CodePageCandidate(_, info, _) => LongestUnique(CodePageUnit(info), data, 0, r.consumed);
    }
  }
}
