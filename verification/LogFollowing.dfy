/**
 A reader that echoes its offset on the log a collector rotates: when it is reset, and which of the child's output it
 never gets to see.
 */
module LogFollowing {
  import opened Basics
  import opened TextDecoder
  import opened LogReader
  import opened LogRotation

  // The bytes of a file, each knowing whether the child wrote it.

  datatype Mark = Mark(byte: Byte, output: bool)

  function MarksOf(w: Write): seq<Mark> {
    seq(|w.bytes|, i requires 0 <= i < |w.bytes| => Mark(w.bytes[i], w.Chunk?))
  }

  function Marks(f: File): (ms: seq<Mark>)
    ensures |ms| == Size(f)
  {
    if f == [] then [] else Marks(f[..|f| - 1]) + MarksOf(f[|f| - 1])
  }

  function Plain(ms: seq<Mark>): seq<Byte> { seq(|ms|, i requires 0 <= i < |ms| => ms[i].byte) }

  /** What a query reads of a file. */
  function Bytes(f: File): seq<Byte> { Plain(Marks(f)) }

  /** The child's part of some bytes. */
  function Only(ms: seq<Mark>): seq<Byte> {
    if ms == [] then [] else (if ms[0].output then [ms[0].byte] else []) + Only(ms[1..])
  }

  /** The child's output in a file from a position on. */
  function Unread(f: File, from: nat): seq<Byte>
    requires from <= Size(f)
  {
    Only(Marks(f)[from..])
  }

  lemma {:induction false} OnlyConcat(a: seq<Mark>, b: seq<Mark>)
    ensures Only(a + b) == Only(a) + Only(b)
  {
    if a == [] {
      assert a + b == b;
    } else {
      ConsConcat(a, b);
      OnlyConcat(a[1..], b);
      Associate(if a[0].output then [a[0].byte] else [], Only(a[1..]), Only(b));
    }
  }

  lemma {:induction false} OnlyOutput(ms: seq<Mark>)
    requires forall i :: 0 <= i < |ms| ==> ms[i].output
    ensures Only(ms) == Plain(ms)
  {
    if ms != [] {
      OnlyOutput(ms[1..]);
      assert Plain(ms) == [ms[0].byte] + Plain(ms[1..]);
    }
  }

  lemma {:induction false} OnlyHeaders(ms: seq<Mark>)
    requires forall i :: 0 <= i < |ms| ==> !ms[i].output
    ensures Only(ms) == []
  {
    if ms != [] { OnlyHeaders(ms[1..]); }
  }

  lemma {:induction false} MarksConcat(a: File, b: File)
    ensures Marks(a + b) == Marks(a) + Marks(b)
  {
    if b == [] {
      assert a + b == a;
    } else {
      SnocConcat(a, b);
      MarksConcat(a, b[..|b| - 1]);
      Associate(Marks(a), Marks(b[..|b| - 1]), MarksOf(b[|b| - 1]));
    }
  }

  function ChunkBytes(steps: seq<Step>): seq<Byte> { Flatten(Chunks(steps)) }

  /** Chunks alone are output and nothing else. */
  lemma {:induction false} ChunkMarks(steps: seq<Step>)
    ensures Plain(Marks(ChunkWrites(steps))) == ChunkBytes(steps)
    ensures forall i :: 0 <= i < |Marks(ChunkWrites(steps))| ==> Marks(ChunkWrites(steps))[i].output
  {
    if steps != [] {
      var n := |steps| - 1;
      var done, last := ChunkWrites(steps[..n]), Chunk(steps[n].chunk);
      ChunkMarks(steps[..n]);
      assert ChunkWrites(steps) == done + [last] && (done + [last])[..|done|] == done;
      assert Plain(MarksOf(last)) == last.bytes;
      assert Plain(Marks(done) + MarksOf(last)) == Plain(Marks(done)) + Plain(MarksOf(last));
      FlattenSnoc(Chunks(steps[..n]), last.bytes);
    }
  }

  /** The chunks of a run in two parts. */
  lemma {:induction false} ChunksConcat(a: seq<Step>, b: seq<Step>)
    ensures ChunkBytes(a + b) == ChunkBytes(a) + ChunkBytes(b)
  {
    if b == [] {
      assert a + b == a;
    } else {
      var n := |b| - 1;
      assert (a + b)[..|a| + n] == a + b[..n];
      ChunksConcat(a, b[..n]);
      FlattenSnoc(Chunks(a + b[..n]), b[n].chunk);
      FlattenSnoc(Chunks(b[..n]), b[n].chunk);
    }
  }

  // What becomes of the live file between two polls.

  /** The header of the last new live file, if there was one, and the chunks before and since. */
  datatype Change = Change(header: Option<seq<Byte>>, earlier: seq<Step>, later: seq<Step>)

  /** The last of the first n chunks before which the live file was renewed. */
  function LastRenewal(l: Log, steps: seq<Step>, n: nat, rotateBytes: nat, keep: nat): (last: Option<nat>)
    requires keep >= 1 && l.Valid() && n <= |steps|
    ensures last.Some? ==> last.value < n && Renewed(l, steps, last.value, rotateBytes, keep)
    ensures forall i :: (if last.Some? then last.value + 1 else 0) <= i < n ==>
              !Renewed(l, steps, i, rotateBytes, keep)
  {
    if n == 0 then None
    else if Renewed(l, steps, n - 1, rotateBytes, keep) then Some(n - 1)
    else LastRenewal(l, steps, n - 1, rotateBytes, keep)
  }

  function ChangeBy(l: Log, steps: seq<Step>, rotateBytes: nat, keep: nat): (c: Change)
    requires keep >= 1 && l.Valid()
    ensures c.earlier + c.later == steps
    ensures c.header.None? ==> c.earlier == []
  {
    match LastRenewal(l, steps, |steps|, rotateBytes, keep)
    case None => Change(None, [], steps)
    case Some(i) =>
      Change(Some(RotationHeader(steps[i].stamp, Trace(l, steps[..i], rotateBytes, keep).size)), steps[..i], steps[i..])
  }

  /** The live file after a change: the one before and the chunks, or a new one with its header and the chunks since. */
  function Changed(before: File, c: Change): File {
    (if c.header.None? then before else [Header(c.header.value)]) + ChunkWrites(c.later)
  }

  /** A part of a run renews the live file where the whole run does. */
  lemma RenewedLater(l: Log, steps: seq<Step>, i: nat, j: nat, rotateBytes: nat, keep: nat)
    requires keep >= 1 && l.Valid() && i + 1 + j < |steps|
    ensures var m := After(Trace(l, steps[..i], rotateBytes, keep), steps[i], rotateBytes, keep);
      Renewed(m, steps[i + 1..], j, rotateBytes, keep) == Renewed(l, steps, i + 1 + j, rotateBytes, keep)
  {
    TraceSnoc(l, steps, i, rotateBytes, keep);
    assert steps[..i + 1 + j] == steps[..i + 1] + steps[i + 1..][..j];
    TraceConcat(l, steps[..i + 1], steps[i + 1..][..j], rotateBytes, keep);
  }

  lemma TraceSnoc(l: Log, steps: seq<Step>, i: nat, rotateBytes: nat, keep: nat)
    requires keep >= 1 && l.Valid() && i < |steps|
    ensures Trace(l, steps[..i + 1], rotateBytes, keep)
         == After(Trace(l, steps[..i], rotateBytes, keep), steps[i], rotateBytes, keep)
  {
    assert steps[..i + 1][..i] == steps[..i];
  }

  lemma {:induction false} ChunkWritesCons(s: Step, later: seq<Step>)
    ensures ChunkWrites([s] + later) == [Chunk(s.chunk)] + ChunkWrites(later)
  {
    if later == [] {
      assert [s] + later == [s] && [s][..0] == [];
    } else {
      SnocConcat([s], later);
      ChunkWritesCons(s, later[..|later| - 1]);
    }
  }

  /** After any stretch of work the live file is what the change says. */
  lemma LiveAfterBurst(l: Log, steps: seq<Step>, rotateBytes: nat, keep: nat)
    requires keep >= 1 && l.open && l.Tracking() && AllSteady(steps)
    ensures Trace(l, steps, rotateBytes, keep).open
    ensures Trace(l, steps, rotateBytes, keep).disk[0] == Changed(l.disk[0], ChangeBy(l, steps, rotateBytes, keep))
  {
    match LastRenewal(l, steps, |steps|, rotateBytes, keep)
    case None => LiveGrows(l, steps, rotateBytes, keep);
    case Some(i) => LiveSince(l, steps, i, rotateBytes, keep);
  }

  lemma LiveSince(l: Log, steps: seq<Step>, i: nat, rotateBytes: nat, keep: nat)
    requires keep >= 1 && l.open && l.Tracking() && AllSteady(steps)
    requires i < |steps| && Renewed(l, steps, i, rotateBytes, keep)
    requires forall k :: i < k < |steps| ==> !Renewed(l, steps, k, rotateBytes, keep)
    ensures var r := Trace(l, steps, rotateBytes, keep);
      var archived := Trace(l, steps[..i], rotateBytes, keep).size;
      r.open && r.disk[0] == [Header(RotationHeader(steps[i].stamp, archived))] + ChunkWrites(steps[i..])
  {
    var later := steps[i + 1..];
    NoneLater(l, steps, i, later, rotateBytes, keep);
    Cut(steps, i);
    LiveSinceRotation(l, steps[..i], steps[i], later, rotateBytes, keep);
    ChunkWritesCons(steps[i], later);
    Associate([Header(RotationHeader(steps[i].stamp, Trace(l, steps[..i], rotateBytes, keep).size))],
              [Chunk(steps[i].chunk)], ChunkWrites(later));
  }

  lemma Cut<T>(s: seq<T>, i: nat)
    requires i < |s|
    ensures s[..i] + ([s[i]] + s[i + 1..]) == s && [s[i]] + s[i + 1..] == s[i..]
  {
  }

  lemma NoneLater(l: Log, steps: seq<Step>, i: nat, later: seq<Step>, rotateBytes: nat, keep: nat)
    requires keep >= 1 && l.Valid() && i < |steps| && later == steps[i + 1..]
    requires forall k :: i < k < |steps| ==> !Renewed(l, steps, k, rotateBytes, keep)
    ensures forall j :: 0 <= j < |later| ==>
      !Renewed(After(Trace(l, steps[..i], rotateBytes, keep), steps[i], rotateBytes, keep), later, j, rotateBytes, keep)
  {
    var m := After(Trace(l, steps[..i], rotateBytes, keep), steps[i], rotateBytes, keep);
    forall j | 0 <= j < |later| ensures !Renewed(m, later, j, rotateBytes, keep) {
      RenewedLater(l, steps, i, j, rotateBytes, keep);
    }
  }

  /** The output before position p of a file that begins with a header. */
  function FirstOutput(header: nat, output: seq<Byte>, p: nat): seq<Byte> {
    if p <= header then [] else output[..Min(p - header, |output|)]
  }

  lemma MarksDivide(first: seq<Mark>, rest: seq<Mark>, p: nat)
    requires forall i :: 0 <= i < |first| ==> !first[i].output
    requires forall i :: 0 <= i < |rest| ==> rest[i].output
    requires p <= |first + rest|
    ensures Only((first + rest)[..p]) == FirstOutput(|first|, Plain(rest), p)
    ensures Only((first + rest)[..p]) + Only((first + rest)[p..]) == Plain(rest)
  {
    OnlyHeaders(first);
    OnlyOutput(rest);
    OnlyConcat(first, rest);
    assert first + rest == (first + rest)[..p] + (first + rest)[p..];
    OnlyConcat((first + rest)[..p], (first + rest)[p..]);
    FirstMarks(first, rest, p);
  }

  lemma FirstMarks(first: seq<Mark>, rest: seq<Mark>, p: nat)
    requires forall i :: 0 <= i < |first| ==> !first[i].output
    requires forall i :: 0 <= i < |rest| ==> rest[i].output
    requires p <= |first + rest|
    ensures Only((first + rest)[..p]) == FirstOutput(|first|, Plain(rest), p)
  {
    if p <= |first| {
      assert (first + rest)[..p] == first[..p];
      OnlyHeaders(first[..p]);
    } else {
      var q := p - |first|;
      assert (first + rest)[..p] == first + rest[..q];
      OnlyHeaders(first);
      OnlyConcat(first, rest[..q]);
      OnlyOutput(rest[..q]);
      assert Plain(rest[..q]) == Plain(rest)[..q];
    }
  }

  lemma HeaderMarks(header: seq<Byte>, steps: seq<Step>)
    ensures Marks([Header(header)] + ChunkWrites(steps)) == MarksOf(Header(header)) + Marks(ChunkWrites(steps))
  {
    MarksConcat([Header(header)], ChunkWrites(steps));
    assert [Header(header)][..0] == [];
  }

  // The next poll.

  /** A query finds the file as the collector left it; more may be appended while it runs. */
  predicate Sees(a: Accesses, f: File) {
    && a.Accesses? && a.atStat == Bytes(f) && |a.atStat| < INT64_LIMIT
    && a.atStat <= a.atPeek && a.atStat <= a.atScan && a.atStat <= a.atRead
  }

  /**
   What a reader at position o never gets when its next answer starts at p: nothing as long as the live file is the
   same. Once it was renewed, all it had not read before the last renewal, and what the new file holds before p.
   */
  function Missed(before: File, c: Change, o: nat, p: nat): seq<Byte>
    requires o <= Size(before)
  {
    if c.header.None? then []
    else Unread(before, o) + ChunkBytes(c.earlier) + FirstOutput(|c.header.value|, ChunkBytes(c.later), p)
  }

  lemma NewFileSize(header: seq<Byte>, steps: seq<Step>)
    ensures Size([Header(header)] + ChunkWrites(steps)) == |header| + |ChunkBytes(steps)|
  {
    HeaderMarks(header, steps);
    ChunkMarks(steps);
  }

  /** A new file begins with its header; the chunks since divide into what comes before a position and what follows. */
  lemma NewFileDivides(header: seq<Byte>, steps: seq<Step>, p: nat)
    requires p <= Size([Header(header)] + ChunkWrites(steps))
    ensures FirstOutput(|header|, ChunkBytes(steps), p) == Only(Marks([Header(header)] + ChunkWrites(steps))[..p])
    ensures FirstOutput(|header|, ChunkBytes(steps), p) + Unread([Header(header)] + ChunkWrites(steps), p)
         == ChunkBytes(steps)
  {
    HeaderMarks(header, steps);
    ChunkMarks(steps);
    MarksDivide(MarksOf(Header(header)), Marks(ChunkWrites(steps)), p);
  }

  /** Wherever in the live file a reader goes on, what it missed and what is ahead of it are all there is. */
  lemma AheadAndMissed(before: File, c: Change, o: nat, p: nat)
    requires o <= Size(before) && p <= Size(Changed(before, c)) && (c.header.None? ==> p == o && c.earlier == [])
    ensures Missed(before, c, o, p) + Unread(Changed(before, c), p)
         == Unread(before, o) + ChunkBytes(c.earlier + c.later)
  {
    if c.header.None? {
      AheadUnrenewed(before, c.later, o);
      assert c.earlier + c.later == c.later;
    } else {
      ChunksConcat(c.earlier, c.later);
      NewFileDivides(c.header.value, c.later, p);
      Regroup(Unread(before, o), ChunkBytes(c.earlier), FirstOutput(|c.header.value|, ChunkBytes(c.later), p),
              Unread(Changed(before, c), p), ChunkBytes(c.later));
    }
  }

  /**
   Nothing is missed exactly while the file is the same, or when the reader had read all that went aside and goes on
   before the first output of the new file. That it is not reset does not say so.
   */
  lemma NothingMissedIff(before: File, c: Change, o: nat, p: nat)
    requires o <= Size(before)
    ensures Missed(before, c, o, p) == [] <==>
            || c.header.None?
            || (&& Unread(before, o) == [] && ChunkBytes(c.earlier) == []
                && (p <= |c.header.value| || ChunkBytes(c.later) == []))
  {
    if c.header.Some? {
      var first := FirstOutput(|c.header.value|, ChunkBytes(c.later), p);
      assert |Missed(before, c, o, p)| == |Unread(before, o)| + |ChunkBytes(c.earlier)| + |first|;
    }
  }

  lemma Regroup<T>(a: seq<T>, b: seq<T>, c: seq<T>, d: seq<T>, e: seq<T>)
    requires c + d == e
    ensures (a + b + c) + d == a + (b + e)
  {
    assert (a + b + c) + d == a + (b + (c + d));
  }

  lemma AheadUnrenewed(before: File, steps: seq<Step>, o: nat)
    requires o <= Size(before)
    ensures Size(before + ChunkWrites(steps)) == Size(before) + |ChunkBytes(steps)|
    ensures Unread(before + ChunkWrites(steps), o) == Unread(before, o) + ChunkBytes(steps)
  {
    var rest := Marks(ChunkWrites(steps));
    MarksConcat(before, ChunkWrites(steps));
    ChunkMarks(steps);
    OnlyOutput(rest);
    assert (Marks(before) + rest)[o..] == Marks(before)[o..] + rest;
    OnlyConcat(Marks(before)[o..], rest);
  }

  /** The answer to a reader that echoes o. */
  ghost function Echoed(d: Decoder, a: Accesses, o: nat, running: bool): LogView { ViewOf(d, a, Decimal(o), running) }

  /** The child's output among the bytes an answer accounts for. */
  function Delivered(f: File, v: LogView): seq<Byte>
    requires v.startOffset <= v.nextOffset <= Size(f)
  {
    Only(Marks(f)[v.startOffset..v.nextOffset])
  }

  /** An answer divides what lies ahead into what it delivers and what stays ahead. */
  lemma AnswerDivides(f: File, v: LogView)
    requires v.startOffset <= v.nextOffset <= Size(f)
    ensures Unread(f, v.startOffset) == Delivered(f, v) + Unread(f, v.nextOffset)
  {
    var ahead, n := Marks(f)[v.startOffset..], v.nextOffset - v.startOffset;
    assert ahead == ahead[..n] + ahead[n..];
    assert ahead[..n] == Marks(f)[v.startOffset..v.nextOffset] && ahead[n..] == Marks(f)[v.nextOffset..];
    OnlyConcat(ahead[..n], ahead[n..]);
  }

  /** The live file becomes shorter than a position in it only by a renewal. */
  lemma ShorterIffRenewed(before: File, c: Change, o: nat)
    requires o <= Size(before)
    ensures Size(Changed(before, c)) < o <==> c.header.Some? && |c.header.value| + |ChunkBytes(c.later)| < o
  {
    if c.header.None? { AheadUnrenewed(before, c.later, o); } else { NewFileSize(c.header.value, c.later); }
  }

  lemma EchoedShape(d: Decoder, f: File, o: nat, a: Accesses, running: bool)
    requires Sees(a, f) && o < INT64_LIMIT
    ensures var v := Echoed(d, a, o, running);
      && (v.reset <==> Size(f) < o) && (!v.reset ==> v.startOffset == o)
      && v.startOffset <= v.nextOffset <= v.size == Size(f)
      && v == Reading(d, f, v.startOffset, v.reset, running)
  {
    DecimalClassifies(o);
    SliceUnchanged(a, f, Echoed(d, a, o, running).startOffset);
  }

  /** The answer to a query of this very file. */
  ghost function Reading(d: Decoder, f: File, start: nat, reset: bool, running: bool): LogView
    requires start <= Size(f)
  {
    ViewAt(d, Accesses(Bytes(f), Bytes(f), Bytes(f), Bytes(f)), start, reset, running)
  }

  /** What is appended meanwhile is left for the next poll. */
  lemma SliceUnchanged(a: Accesses, f: File, start: nat)
    requires Sees(a, f) && start <= Size(f)
    ensures Slice(a, start) == Slice(Accesses(Bytes(f), Bytes(f), Bytes(f), Bytes(f)), start)
  {
  }

  /**
   The poll after any stretch of the collector's work, with any number of rotations in it. It is a reset exactly when
   the live file was renewed and the new one is still shorter than the offset; otherwise it reads on at the offset, in
   whichever file is there. Either way what was missed, what was delivered and what lies ahead are, in order and without
   overlap, all the output the reader had not seen.
   */
  lemma NextPoll(d: Decoder, l: Log, steps: seq<Step>, o: nat, a: Accesses, running: bool, rotateBytes: nat, keep: nat)
    requires keep >= 1 && l.open && l.Tracking() && AllSteady(steps) && o <= Size(l.disk[0]) < INT64_LIMIT
    requires Sees(a, Content(Trace(l, steps, rotateBytes, keep).disk, 0))
    ensures var v, c := Echoed(d, a, o, running), ChangeBy(l, steps, rotateBytes, keep);
      var after := Content(Trace(l, steps, rotateBytes, keep).disk, 0);
      && (v.reset <==> c.header.Some? && |c.header.value| + |ChunkBytes(c.later)| < o)
      && (!v.reset ==> v.startOffset == o)
      && v.startOffset <= v.nextOffset <= v.size == Size(after)
      && v == Reading(d, after, v.startOffset, v.reset, running)
      && Missed(l.disk[0], c, o, v.startOffset) + Delivered(after, v) + Unread(after, v.nextOffset)
         == Unread(l.disk[0], o) + ChunkBytes(steps)
  {
    var v, c := Echoed(d, a, o, running), ChangeBy(l, steps, rotateBytes, keep);
    var after := Content(Trace(l, steps, rotateBytes, keep).disk, 0);
    LiveAfterBurst(l, steps, rotateBytes, keep);
    EchoedShape(d, after, o, a, running);
    PollOfChange(l.disk[0], c, o, v);
  }

  lemma PollOfChange(before: File, c: Change, o: nat, v: LogView)
    requires o <= Size(before) && (c.header.None? ==> c.earlier == [])
    requires v.reset <==> Size(Changed(before, c)) < o
    requires !v.reset ==> v.startOffset == o
    requires v.startOffset <= v.nextOffset <= Size(Changed(before, c))
    ensures v.reset <==> c.header.Some? && |c.header.value| + |ChunkBytes(c.later)| < o
    ensures var after := Changed(before, c);
      Missed(before, c, o, v.startOffset) + Delivered(after, v) + Unread(after, v.nextOffset)
      == Unread(before, o) + ChunkBytes(c.earlier + c.later)
  {
    ShorterIffRenewed(before, c, o);
    AheadAndMissed(before, c, o, v.startOffset);
    AnswerDivides(Changed(before, c), v);
  }

  // Whole runs.

  /** The collector works for a while, then the reader polls. */
  datatype Round = Round(steps: seq<Step>, a: Accesses, running: bool)

  /** One reader on one log. */
  datatype Following = Following(log: Log, offset: nat)
  {
    predicate Valid() { log.open && log.Tracking() && offset <= Size(log.disk[0]) < INT64_LIMIT }
  }

  /** What one round took from the reader and what it gave. */
  datatype Share = Share(missed: seq<Byte>, delivered: seq<Byte>)

  ghost predicate Plays(s: Following, r: Round, rotateBytes: nat, keep: nat)
    requires keep >= 1 && s.log.Valid()
  {
    AllSteady(r.steps) && Sees(r.a, Content(Trace(s.log, r.steps, rotateBytes, keep).disk, 0))
  }

  ghost function AfterRound(d: Decoder, s: Following, r: Round, rotateBytes: nat, keep: nat): Following
    requires keep >= 1 && s.log.Valid()
  {
    Following(Trace(s.log, r.steps, rotateBytes, keep), Echoed(d, r.a, s.offset, r.running).nextOffset)
  }

  lemma RoundKeepsValid(d: Decoder, s: Following, r: Round, rotateBytes: nat, keep: nat)
    requires keep >= 1 && s.Valid() && Plays(s, r, rotateBytes, keep)
    ensures AfterRound(d, s, r, rotateBytes, keep).Valid()
  {
    NextPoll(d, s.log, r.steps, s.offset, r.a, r.running, rotateBytes, keep);
    RunKeepsTracking(s.log, r.steps, rotateBytes, keep);
  }

  ghost predicate PlaysAll(d: Decoder, s: Following, rounds: seq<Round>, rotateBytes: nat, keep: nat)
    requires keep >= 1 && s.log.Valid()
    decreases |rounds|
  {
    rounds == [] || (Plays(s, rounds[0], rotateBytes, keep) &&
                     PlaysAll(d, AfterRound(d, s, rounds[0], rotateBytes, keep), rounds[1..], rotateBytes, keep))
  }

  ghost function AfterRounds(d: Decoder, s: Following, rounds: seq<Round>, rotateBytes: nat, keep: nat): (t: Following)
    requires keep >= 1 && s.log.Valid()
    ensures t.log.Valid()
    decreases |rounds|
  {
    if rounds == [] then s
    else AfterRounds(d, AfterRound(d, s, rounds[0], rotateBytes, keep), rounds[1..], rotateBytes, keep)
  }

  ghost function ShareOf(d: Decoder, s: Following, r: Round, rotateBytes: nat, keep: nat): Share
    requires keep >= 1 && s.Valid() && Plays(s, r, rotateBytes, keep)
  {
    var v := Echoed(d, r.a, s.offset, r.running);
    NextPoll(d, s.log, r.steps, s.offset, r.a, r.running, rotateBytes, keep);
    Share(Missed(s.log.disk[0], ChangeBy(s.log, r.steps, rotateBytes, keep), s.offset, v.startOffset),
          Delivered(Content(Trace(s.log, r.steps, rotateBytes, keep).disk, 0), v))
  }

  /** One round accounts for all the output there was and came. */
  lemma RoundConserves(d: Decoder, s: Following, r: Round, rotateBytes: nat, keep: nat)
    requires keep >= 1 && s.Valid() && Plays(s, r, rotateBytes, keep)
    ensures var m, share := AfterRound(d, s, r, rotateBytes, keep), ShareOf(d, s, r, rotateBytes, keep);
      && m.Valid()
      && share.missed + share.delivered + Unread(m.log.disk[0], m.offset)
         == Unread(s.log.disk[0], s.offset) + ChunkBytes(r.steps)
  {
    RoundKeepsValid(d, s, r, rotateBytes, keep);
    NextPoll(d, s.log, r.steps, s.offset, r.a, r.running, rotateBytes, keep);
  }

  ghost function Shares(d: Decoder, s: Following, rounds: seq<Round>, rotateBytes: nat, keep: nat): seq<Share>
    requires keep >= 1 && s.Valid() && PlaysAll(d, s, rounds, rotateBytes, keep)
    decreases |rounds|
  {
    if rounds == [] then []
    else
      RoundKeepsValid(d, s, rounds[0], rotateBytes, keep);
      [ShareOf(d, s, rounds[0], rotateBytes, keep)]
      + Shares(d, AfterRound(d, s, rounds[0], rotateBytes, keep), rounds[1..], rotateBytes, keep)
  }

  function Account(shares: seq<Share>): seq<Byte> {
    if shares == [] then [] else shares[0].missed + shares[0].delivered + Account(shares[1..])
  }

  function AllChunks(rounds: seq<Round>): seq<Byte> {
    if rounds == [] then [] else ChunkBytes(rounds[0].steps) + AllChunks(rounds[1..])
  }

  /**
   Over every run of collecting, rotating and polling, each byte of the child's output from the reader's position on is
   missed once, delivered once or still ahead, and the three follow the order in which the child wrote it.
   */
  lemma {:induction false} FollowingConserves(d: Decoder, s: Following, rounds: seq<Round>, rotateBytes: nat, keep: nat)
    requires keep >= 1 && s.Valid() && PlaysAll(d, s, rounds, rotateBytes, keep)
    ensures var t := AfterRounds(d, s, rounds, rotateBytes, keep);
      && t.Valid()
      && Account(Shares(d, s, rounds, rotateBytes, keep)) + Unread(t.log.disk[0], t.offset)
         == Unread(s.log.disk[0], s.offset) + AllChunks(rounds)
    decreases |rounds|
  {
    if rounds != [] {
      var r := rounds[0];
      var m := AfterRound(d, s, r, rotateBytes, keep);
      RoundConserves(d, s, r, rotateBytes, keep);
      FollowingConserves(d, m, rounds[1..], rotateBytes, keep);
      var t := AfterRounds(d, m, rounds[1..], rotateBytes, keep);
      var share := ShareOf(d, s, r, rotateBytes, keep);
      Chain(share.missed + share.delivered, Account(Shares(d, m, rounds[1..], rotateBytes, keep)),
            Unread(t.log.disk[0], t.offset), Unread(m.log.disk[0], m.offset), AllChunks(rounds[1..]),
            Unread(s.log.disk[0], s.offset), ChunkBytes(r.steps));
    }
  }

  lemma Chain<T>(now: seq<T>, later: seq<T>, end: seq<T>, between: seq<T>, more: seq<T>, start: seq<T>, chunk: seq<T>)
    requires later + end == between + more && now + between == start + chunk
    ensures (now + later) + end == start + (chunk + more)
  {
    calc {
      (now + later) + end;
      now + (later + end);
      (now + between) + more;
      start + (chunk + more);
    }
  }
}
