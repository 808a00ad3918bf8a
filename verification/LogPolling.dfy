/** Whole runs of a child appending to its log and a reader polling it, echoing next_offset each time. */
module LogPolling {
  import opened Basics
  import opened PrefixCodes
  import opened Utf8
  import opened TextDecoder
  import opened LogReader

  /**
   The child appends, or the reader polls; during is what the child appends between the poll's size check and its
   read.
   */
  datatype Event = Append(bytes: seq<Byte>) | Poll(during: seq<Byte>)

  datatype Session = Session(file: seq<Byte>, offset: nat, views: seq<LogView>)

  ghost function Next(d: Decoder, s: Session, e: Event): (t: Session)
    requires s.offset <= |s.file|
    ensures t.offset <= |t.file|
  {
    match e
    case Append(bytes) => s.(file := s.file + bytes)
    case Poll(during) =>
      var v := Polled(d, s.file, during, s.offset, true);
      Session(s.file + during, v.nextOffset, s.views + [v])
  }

  /** The answer to a query that echoes an offset of the file. */
  ghost function Polled(d: Decoder, file: seq<Byte>, during: seq<Byte>, offset: nat, running: bool): (v: LogView)
    requires offset <= |file|
    ensures v.startOffset == offset <= v.nextOffset <= v.size == |file|
  {
    ViewAt(d, Accesses(file, file, file, file + during), offset, false, running)
  }

  /** The offset travels as decimal text and comes back unchanged, so this is what the query is answered. */
  lemma EchoIsPolled(d: Decoder, file: seq<Byte>, during: seq<Byte>, offset: nat, running: bool)
    requires offset <= |file| < INT64_LIMIT
    ensures ViewOf(d, Accesses(file, file, file, file + during), Decimal(offset), running)
            == Polled(d, file, during, offset, running)
  {
    EchoIsExact(d, Accesses(file, file, file, file + during), offset, running);
  }

  ghost function Run(d: Decoder, s: Session, events: seq<Event>): (t: Session)
    requires s.offset <= |s.file|
    ensures t.offset <= |t.file|
    decreases |events|
  {
    if events == [] then s else Run(d, Next(d, s, events[0]), events[1..])
  }

  function Texts(views: seq<LogView>): seq<seq<Byte>> { seq(|views|, i requires 0 <= i < |views| => views[i].text) }

  /** The read ranges follow one another without gap or overlap. */
  predicate Tiled(views: seq<LogView>, from: nat, to: nat) {
    if views == [] then from == to
    else
      var last := views[|views| - 1];
      last.nextOffset == to && Tiled(views[..|views| - 1], from, last.startOffset)
  }

  predicate Faithful(v: LogView) {
    && !v.reset
    && v.encoding == NAME_UTF8
    && v.startOffset <= v.nextOffset <= v.size
    && (!v.truncated ==> v.size - v.nextOffset <= CARRY_MAX)
    && (v.truncated ==> v.nextOffset > v.startOffset)
  }

  /** What the reader holds is exactly the file from where it started to where it stands, cut between characters. */
  ghost predicate InStep(s: Session, start: nat) {
    && start <= s.offset <= |s.file|
    && WellFormed(s.file[..s.offset])
    && Tiled(s.views, start, s.offset)
    && Flatten(Texts(s.views)) == s.file[start..s.offset]
    && forall i :: 0 <= i < |s.views| ==> Faithful(s.views[i])
  }

  lemma PollView(d: Decoder, file: seq<Byte>, during: seq<Byte>, offset: nat)
    requires d.Valid() && offset <= |file|
    requires WellFormed(file[..offset]) && Viable(IsChar, file)
    ensures var v := Polled(d, file, during, offset, true);
            && v.startOffset == offset && Faithful(v)
            && v.nextOffset <= |file|
            && v.text == file[offset..v.nextOffset]
            && WellFormed(file[..v.nextOffset])
  {
    var a := Accesses(file, file, file, file + during);
    var data := Slice(a, offset);
    assert data == file[offset..offset + |data|];
    PollSlice(d, file, data, offset);
    StallIsShort(d, a, offset, false, true);
  }

  lemma PollSlice(d: Decoder, file: seq<Byte>, data: seq<Byte>, offset: nat)
    requires d.Valid() && offset + |data| <= |file| && data == file[offset..offset + |data|]
    requires WellFormed(file[..offset]) && Viable(IsChar, file)
    ensures var r := Decoded(d, data);
            && r.consumed <= |data|
            && r == Result(file[offset..offset + r.consumed], r.consumed, NAME_UTF8)
            && WellFormed(file[..offset + r.consumed])
  {
    SliceIsViable(file, data, offset);
    ViableIsUtf8(d, data);
    PrefixIsWellFormed(file, data, offset, Longest(IsChar, data));
  }

  /** What was read after a character boundary is itself the beginning of UTF-8. */
  lemma SliceIsViable(file: seq<Byte>, data: seq<Byte>, offset: nat)
    requires offset + |data| <= |file| && data == file[offset..offset + |data|]
    requires WellFormed(file[..offset]) && Viable(IsChar, file)
    ensures Viable(IsChar, data)
  {
    Utf8PrefixFree();
    var end := offset + |data|;
    assert file == file[..end] + file[end..];
    ViablePrefix(IsChar, file[..end], file[end..]);
    assert file[..end] == file[..offset] + data;
    ViableAfter(IsChar, file[..offset], data);
  }

  lemma PrefixIsWellFormed(file: seq<Byte>, data: seq<Byte>, offset: nat, n: nat)
    requires offset + |data| <= |file| && data == file[offset..offset + |data|] && n <= |data|
    requires WellFormed(file[..offset]) && WellFormed(data[..n])
    ensures WellFormed(file[..offset + n]) && file[offset..offset + n] == data[..n]
  {
    ConcatSegmented(IsChar, file[..offset], data[..n]);
    assert file[..offset + n] == file[..offset] + data[..n];
  }

  lemma StepKeepsInStep(d: Decoder, s: Session, e: Event, start: nat)
    requires d.Valid() && InStep(s, start)
    requires Viable(IsChar, Next(d, s, e).file)
    ensures InStep(Next(d, s, e), start)
  {
    var t := Next(d, s, e);
    assert t.file == s.file + t.file[|s.file|..];
    ViablePrefix(IsChar, s.file, t.file[|s.file|..]);
    assert t.file[..s.offset] == s.file[..s.offset];
    assert t.file[start..s.offset] == s.file[start..s.offset];
    if e.Poll? {
      var v := Polled(d, s.file, e.during, s.offset, true);
      PollView(d, s.file, e.during, s.offset);
      ViewKeepsInStep(s, v, start);
      assert t.file[..t.offset] == s.file[..t.offset];
      assert t.file[start..t.offset] == s.file[start..t.offset];
    }
  }

  lemma ViewKeepsInStep(s: Session, v: LogView, start: nat)
    requires InStep(s, start)
    requires v.startOffset == s.offset && Faithful(v) && v.nextOffset <= |s.file|
    requires v.text == s.file[s.offset..v.nextOffset] && WellFormed(s.file[..v.nextOffset])
    ensures InStep(Session(s.file, v.nextOffset, s.views + [v]), start)
  {
    var views := s.views + [v];
    assert views[..|views| - 1] == s.views;
    assert Texts(views) == Texts(s.views) + [v.text];
    FlattenSnoc(Texts(s.views), v.text);
    assert s.file[start..v.nextOffset] == s.file[start..s.offset] + s.file[s.offset..v.nextOffset];
  }

  lemma {:induction false} RunExtends(d: Decoder, s: Session, events: seq<Event>)
    requires s.offset <= |s.file|
    ensures s.file <= Run(d, s, events).file
    decreases |events|
  {
    if events != [] { RunExtends(d, Next(d, s, events[0]), events[1..]); }
  }

  /**
   Over every run of appends and polls whose log stays a prefix of well-formed UTF-8, a reader that starts at a
   character boundary and echoes next_offset sees every byte once, in order, never half a character and never a reset;
   a poll that was not capped leaves at most three bytes for the next one.
   */
  lemma {:induction false} PollingIsFaithful(d: Decoder, s: Session, events: seq<Event>, start: nat)
    requires d.Valid() && InStep(s, start)
    requires Viable(IsChar, Run(d, s, events).file)
    ensures InStep(Run(d, s, events), start)
    decreases |events|
  {
    if events != [] {
      var t, final := Next(d, s, events[0]), Run(d, s, events);
      RunExtends(d, t, events[1..]);
      assert final.file == t.file + final.file[|t.file|..];
      ViablePrefix(IsChar, t.file, final.file[|t.file|..]);
      StepKeepsInStep(d, s, events[0], start);
      PollingIsFaithful(d, t, events[1..], start);
    }
  }

  /** A reader may begin at offset 0 or wherever a tail read found a line start. */
  lemma MayStartAt(file: seq<Byte>, start: nat)
    requires Viable(IsChar, file) && start <= |file|
    requires start == 0 || file[start - 1] == LF
    ensures InStep(Session(file, start, []), start)
  {
    if start == 0 { assert file[..0] == []; } else { LineStartIsBoundary(file, start); }
    assert Texts([]) == [];
  }

  // Polling the log of a child that is gone, whatever bytes it left.

  const STRIDE := LOG_RESPONSE_MAX_BYTES - CARRY_MAX

  ghost function Iterate(next: nat -> nat, offset: nat, polls: nat): nat
    decreases polls
  {
    if polls == 0 then offset else Iterate(next, next(offset), polls - 1)
  }

  /** From one offset to the next one a reader of a finished log is told. */
  ghost function Resume(d: Decoder, file: seq<Byte>): nat -> nat {
    (offset: nat) => if offset <= |file| then Polled(d, file, [], offset, false).nextOffset else offset
  }

  /** A poll moves, a capped one by a stride, and the last stretch takes two. */
  ghost predicate DrainsAt(next: nat -> nat, size: nat, offset: nat) {
    && offset <= next(offset) <= size
    && (offset < size ==> offset < next(offset))
    && (size - offset > LOG_RESPONSE_MAX_BYTES ==> next(offset) >= offset + STRIDE)
    && (size - offset <= LOG_RESPONSE_MAX_BYTES ==> next(next(offset)) == size)
  }

  ghost predicate Drains(next: nat -> nat, size: nat) {
    forall offset: nat :: offset <= size ==> DrainsAt(next, size, offset)
  }

  lemma {:induction false} DrainedStays(next: nat -> nat, size: nat, polls: nat)
    requires Drains(next, size)
    ensures Iterate(next, size, polls) == size
  {
    if polls > 0 {
      assert DrainsAt(next, size, size);
      DrainedStays(next, size, polls - 1);
    }
  }

  lemma {:induction false} DrainWithin(next: nat -> nat, size: nat, offset: nat, strides: nat)
    requires Drains(next, size)
    requires offset <= size && size - offset <= strides * STRIDE
    ensures Iterate(next, offset, strides + 1) == size
    decreases strides
  {
    if strides == 0 {
      DrainedStays(next, size, 1);
    } else if size - offset <= LOG_RESPONSE_MAX_BYTES {
      assert DrainsAt(next, size, offset);
      assert Iterate(next, offset, strides + 1) == Iterate(next, next(offset), strides);
      assert Iterate(next, next(offset), strides) == Iterate(next, size, strides - 1);
      DrainedStays(next, size, strides - 1);
    } else {
      assert DrainsAt(next, size, offset);
      DrainWithin(next, size, next(offset), strides - 1);
    }
  }

  lemma DrainsReach(next: nat -> nat, size: nat)
    requires Drains(next, size)
    ensures Iterate(next, 0, (size + STRIDE - 1) / STRIDE + 1) == size
    ensures forall offset: nat :: offset < size ==> offset < next(offset)
  {
    DrainWithin(next, size, 0, (size + STRIDE - 1) / STRIDE);
    forall offset: nat | offset < size
      ensures offset < next(offset)
    {
      assert DrainsAt(next, size, offset);
    }
  }

  lemma ResumeMoves(d: Decoder, file: seq<Byte>, offset: nat)
    requires offset <= |file|
    ensures var next := Resume(d, file)(offset);
            && offset <= next <= |file|
            && (offset < |file| ==> offset < next)
            && (|file| - offset > LOG_RESPONSE_MAX_BYTES ==> next >= offset + STRIDE)
  {
    StallIsShort(d, Accesses(file, file, file, file + []), offset, false, false);
  }

  /** The last stretch takes two polls: one for what is complete, one for the bytes of a character that never came. */
  lemma LastStretch(d: Decoder, file: seq<Byte>, offset: nat)
    requires d.Valid() && offset <= |file|
    requires |file| - offset <= LOG_RESPONSE_MAX_BYTES
    ensures Resume(d, file)(Resume(d, file)(offset)) == |file|
  {
    var a := Accesses(file, file, file, file + []);
    assert file + [] == file;
    var next := Resume(d, file)(offset);
    ResumeMoves(d, file, offset);
    ResumeMoves(d, file, next);
    var data := file[offset..];
    assert Slice(a, offset) == data && Slice(a, next) == file[next..];
    CarrySettles(d, data);
    CarryAtMostThree(d, data);
    assert next < |file| ==> data[next - offset..] == file[next..];
  }

  lemma ResumeDrains(d: Decoder, file: seq<Byte>)
    requires d.Valid()
    ensures Drains(Resume(d, file), |file|)
  {
    forall offset: nat | offset <= |file|
      ensures DrainsAt(Resume(d, file), |file|, offset)
    {
      ResumeMoves(d, file, offset);
      if |file| - offset <= LOG_RESPONSE_MAX_BYTES { LastStretch(d, file, offset); }
    }
  }

  /**
   Once the child is gone its log, whatever its bytes, is read to the end: every poll short of the end moves forward,
   and from offset 0 the end is reached within one poll more than the file holds response limits less three.
   */
  lemma StaticLogDrains(d: Decoder, file: seq<Byte>)
    requires d.Valid()
    ensures Iterate(Resume(d, file), 0, (|file| + STRIDE - 1) / STRIDE + 1) == |file|
    ensures forall offset: nat :: offset < |file| ==> offset < Resume(d, file)(offset)
  {
    ResumeDrains(d, file);
    DrainsReach(Resume(d, file), |file|);
  }
}
