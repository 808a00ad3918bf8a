/**
 A child's log and its archives. A file is kept as the list of writes that made it, so that a chunk stays visible as a
 whole; its bytes are those writes laid end to end.
 */
module LogRotation {
  import opened Basics

  /** Chunk: what one write of the child's output left on disk. Header: the line a rotation puts first. */
  datatype Write = Chunk(bytes: seq<Byte>) | Header(bytes: seq<Byte>)

  type File = seq<Write>

  function Size(f: File): nat {
    if f == [] then 0 else Size(f[..|f| - 1]) + |f[|f| - 1].bytes|
  }

  /** The child's output in a file: everything but the headers. */
  function Output(f: File): seq<seq<Byte>> {
    if f == [] then []
    else
      var last := f[|f| - 1];
      Output(f[..|f| - 1]) + if last.Chunk? then [last.bytes] else []
  }

  lemma Appended(f: File, w: Write)
    ensures Size(f + [w]) == Size(f) + |w.bytes|
    ensures Output(f + [w]) == Output(f) + if w.Chunk? then [w.bytes] else []
  {
    assert (f + [w])[..|f|] == f;
  }

  function Ascii(s: string): seq<Byte> {
    seq(|s|, i requires 0 <= i < |s| => s[i] as int % 256)
  }

  /** The line that opens a rotated log: when, and how many bytes went aside. */
  function RotationHeader(stamp: seq<Byte>, archived: nat): seq<Byte> {
    Ascii("--- rotated ") + stamp + Ascii(" (previous ") + Ascii(Decimal(archived)) + Ascii(" bytes archived) ---\n")
  }

  /** Archive n is <path>.n; 0 is the live file. */
  type Disk = map<nat, File>

  function Fetch(d: Disk, n: nat): Option<File> { if n in d then Some(d[n]) else None }

  function Content(d: Disk, n: nat): File { if n in d then d[n] else [] }

  /**
   What goes wrong during one write: the removal of the oldest archive, the shift of each archive, the final rename, the
   reopening, the size check after it, and a header or a chunk that reaches the disk only in part.
   */
  datatype Weather = Weather(removeOk: bool, shiftOk: nat -> bool, renameOk: bool, openOk: bool, statOk: bool,
                             headerCut: Option<nat>, chunkCut: Option<nat>)
  {
    /** The archives move as they should. */
    ghost predicate Shifts() { removeOk && forall n: nat :: shiftOk(n) }

    /** The live file can be reopened, measured and written. Renames may still fail. */
    predicate Steady() { openOk && statOk && headerCut.None? && chunkCut.None? }
  }

  /** What a write leaves on disk. */
  function Taken(bytes: seq<Byte>, cut: Option<nat>): (t: seq<Byte>)
    ensures |t| <= |bytes| && t == bytes[..|t|]
  {
    if cut.Some? && cut.value < |bytes| then bytes[..cut.value] else bytes
  }

  /** os.Rename: the target is replaced. */
  function Rename(d: Disk, from: nat, to: nat): Disk
    requires from in d
  {
    d[to := d[from]] - {from}
  }

  function ShiftOne(d: Disk, n: nat, ok: bool): Disk {
    if n in d && ok then Rename(d, n, n + 1) else d
  }

  /** The shifts from archive n down to archive 1. */
  function ShiftFrom(d: Disk, n: nat, shiftOk: nat -> bool): Disk
    decreases n
  {
    if n == 0 then d else ShiftFrom(ShiftOne(d, n, shiftOk(n)), n - 1, shiftOk)
  }

  /** The oldest archive goes, every other one moves up by one. */
  function ArchivesAfter(d: Disk, w: Weather, keep: nat): Disk
    requires keep >= 1
  {
    ShiftFrom(if w.removeOk then d - {keep} else d, keep - 1, w.shiftOk)
  }

  /** Whatever fails, the shifts leave the live file alone. */
  lemma {:induction false} ShiftKeepsLive(d: Disk, n: nat, shiftOk: nat -> bool)
    ensures Fetch(ShiftFrom(d, n, shiftOk), 0) == Fetch(d, 0)
    decreases n
  {
    if n > 0 { ShiftKeepsLive(ShiftOne(d, n, shiftOk(n)), n - 1, shiftOk); }
  }

  /** Once the place above is free, the shifts move archives 1 to n up by one and leave place 1 free. */
  lemma {:induction false} ShiftMovesUp(d: Disk, n: nat, shiftOk: nat -> bool, k: nat)
    requires n + 1 !in d && forall m: nat :: shiftOk(m)
    ensures Fetch(ShiftFrom(d, n, shiftOk), k) ==
            if 2 <= k <= n + 1 then Fetch(d, k - 1) else if k == 1 then None else Fetch(d, k)
    decreases n
  {
    if n > 0 {
      var moved := ShiftOne(d, n, true);
      assert Fetch(moved, n + 1) == Fetch(d, n);
      ShiftMovesUp(moved, n - 1, shiftOk, k);
    }
  }

  /** The collector's fields and what it has on disk. */
  datatype Log = Log(disk: Disk, open: bool, size: nat, failed: bool)
  {
    predicate Valid() { open ==> 0 in disk }

    /** The tracked size is the length of the file held open. */
    predicate Tracking() { open ==> 0 in disk && size == Size(disk[0]) }
  }

  /** One write to the file held open. */
  function Put(l: Log, write: Write, whole: nat): Log
    requires l.open && l.Valid()
  {
    l.(disk := l.disk[0 := l.disk[0] + [write]],
       size := l.size + |write.bytes|,
       failed := l.failed || |write.bytes| < whole)
  }

  /** The log after a rotation, whatever went wrong. */
  function Rotated(l: Log, stamp: seq<Byte>, w: Weather, keep: nat): (r: Log)
    requires keep >= 1 && l.open && l.Valid()
    ensures r.Valid()
  {
    var shifted := ArchivesAfter(l.disk, w, keep);
    var moved := w.renameOk && 0 in shifted;
    var aside := if moved then Rename(shifted, 0, 1) else shifted;
    if !w.openOk then Log(aside, false, l.size, true)
    else
      var live := Content(aside, 0);
      var reopened := Log(aside[0 := live], true, if w.statOk then Size(live) else 0, l.failed);
      var header := RotationHeader(stamp, l.size);
      if moved then Put(reopened, Header(Taken(header, w.headerCut)), |header|) else reopened
  }

  datatype Step = Step(chunk: seq<Byte>, stamp: seq<Byte>, w: Weather)

  predicate Rotates(l: Log, s: Step, rotateBytes: nat) {
    l.open && l.size + |s.chunk| >= rotateBytes
  }

  /** The log after one chunk. */
  function After(l: Log, s: Step, rotateBytes: nat, keep: nat): (r: Log)
    requires keep >= 1 && l.Valid()
    ensures r.Valid()
  {
    var ready := if Rotates(l, s, rotateBytes) then Rotated(l, s.stamp, s.w, keep) else l;
    if ready.open then Put(ready, Chunk(Taken(s.chunk, s.w.chunkCut)), |s.chunk|) else ready
  }

  class Collector {
    var disk: Disk
    var open: bool
    var size: nat
    var failed: bool
    const rotateBytes: nat
    const keep: nat

    ghost function State(): Log
      reads this
    {
      Log(disk, open, size, failed)
    }

    /** The log is opened for appending, or not; the tracked size starts from what is on disk. */
    constructor (disk: Disk, rotateBytes: nat, keep: nat, openOk: bool, statOk: bool)
      requires keep >= 1
      ensures this.rotateBytes == rotateBytes && this.keep == keep
      ensures State().Valid() && open == openOk && failed == !openOk
      ensures this.disk == if openOk then disk[0 := Content(disk, 0)] else disk
      ensures openOk && statOk ==> State().Tracking()
    {
      this.rotateBytes, this.keep := rotateBytes, keep;
      this.disk := if openOk then disk[0 := Content(disk, 0)] else disk;
      open, failed := openOk, !openOk;
      size := if openOk && statOk then Size(Content(disk, 0)) else 0;
    }

    method ShiftArchives(w: Weather)
      requires keep >= 1
      modifies this`disk
      ensures disk == ArchivesAfter(old(disk), w, keep)
    {
      if w.removeOk { disk := disk - {keep}; }
      var n := keep - 1;
      while n >= 1
        invariant 0 <= n < keep
        invariant ShiftFrom(disk, n, w.shiftOk) == ArchivesAfter(old(disk), w, keep)
      {
        if n in disk && w.shiftOk(n) { disk := Rename(disk, n, n + 1); }
        n := n - 1;
      }
    }

    /** Hands the current log aside and starts an empty one. */
    method Rotate(stamp: seq<Byte>, w: Weather)
      requires keep >= 1 && open && State().Valid()
      modifies this
      ensures State() == Rotated(old(State()), stamp, w, keep)
    {
      var archived := size;
      open := false;
      ShiftArchives(w);
      var moved := w.renameOk && 0 in disk;
      if moved { disk := Rename(disk, 0, 1); }
      if !w.openOk {
        failed := true;
        return;
      }
      disk := disk[0 := Content(disk, 0)];
      open, size := true, 0;
      if w.statOk { size := Size(disk[0]); }
      if !moved { return; }
      var header := RotationHeader(stamp, archived);
      var taken := Taken(header, w.headerCut);
      disk := disk[0 := disk[0] + [Header(taken)]];
      size := size + |taken|;
      if |taken| < |header| { failed := true; }
    }

    /** Appends one chunk, rotating first when it would reach the threshold. */
    method Append(s: Step)
      requires keep >= 1 && State().Valid()
      modifies this
      ensures State() == After(old(State()), s, rotateBytes, keep)
    {
      if !open { return; }
      if size + |s.chunk| >= rotateBytes {
        Rotate(s.stamp, s.w);
        if !open { return; }
      }
      var taken := Taken(s.chunk, s.w.chunkCut);
      disk := disk[0 := disk[0] + [Chunk(taken)]];
      size := size + |taken|;
      if |taken| < |s.chunk| { failed := true; }
    }
  }

  // One step.

  /** The tracked size stays exact as long as a reopened log can be measured. */
  lemma AfterKeepsTracking(l: Log, s: Step, rotateBytes: nat, keep: nat)
    requires keep >= 1 && l.Tracking() && (s.w.statOk || s.w.renameOk)
    ensures After(l, s, rotateBytes, keep).Tracking()
  {
    var ready := if Rotates(l, s, rotateBytes) then Rotated(l, s.stamp, s.w, keep) else l;
    if Rotates(l, s, rotateBytes) { RotatedKeepsTracking(l, s.stamp, s.w, keep); }
    if ready.open { PutKeepsTracking(ready, Chunk(Taken(s.chunk, s.w.chunkCut)), |s.chunk|); }
  }

  lemma RotatedKeepsTracking(l: Log, stamp: seq<Byte>, w: Weather, keep: nat)
    requires keep >= 1 && l.open && l.Tracking() && (w.statOk || w.renameOk)
    ensures Rotated(l, stamp, w, keep).Tracking()
  {
    var shifted := ArchivesAfter(l.disk, w, keep);
    ShiftKeepsLive(if w.removeOk then l.disk - {keep} else l.disk, keep - 1, w.shiftOk);
    if w.openOk && w.renameOk {
      var header := RotationHeader(stamp, l.size);
      var reopened := Log(Rename(shifted, 0, 1)[0 := []], true, 0, l.failed);
      assert reopened.Tracking();
      PutKeepsTracking(reopened, Header(Taken(header, w.headerCut)), |header|);
    }
  }

  lemma PutKeepsTracking(l: Log, write: Write, whole: nat)
    requires l.open && l.Tracking()
    ensures Put(l, write, whole).open && Put(l, write, whole).Tracking()
  {
    Appended(l.disk[0], write);
  }

  /** With the archives moving, a rotation moves every file up one place; a failed final rename leaves place 1 empty. */
  lemma RotatedArchives(l: Log, stamp: seq<Byte>, w: Weather, keep: nat, k: nat)
    requires l.open && l.Valid() && w.openOk && w.Shifts() && 1 <= k <= keep
    ensures Fetch(Rotated(l, stamp, w, keep).disk, k) == if k == 1 && !w.renameOk then None else Fetch(l.disk, k - 1)
  {
    ShiftMovesUp(l.disk - {keep}, keep - 1, w.shiftOk, k);
    ShiftMovesUp(l.disk - {keep}, keep - 1, w.shiftOk, 0);
  }

  /** Whatever becomes of the archives, the live file starts anew exactly when the final rename works. */
  lemma RotatedLive(l: Log, stamp: seq<Byte>, w: Weather, keep: nat)
    requires keep >= 1 && l.open && l.Valid() && w.Steady()
    ensures Rotated(l, stamp, w, keep).disk[0]
         == if w.renameOk then [Header(RotationHeader(stamp, l.size))] else l.disk[0]
  {
    ShiftKeepsLive(if w.removeOk then l.disk - {keep} else l.disk, keep - 1, w.shiftOk);
  }

  /** The same for a whole step. */
  lemma AfterLive(l: Log, s: Step, rotateBytes: nat, keep: nat)
    requires keep >= 1 && l.open && l.Valid() && s.w.Steady()
    ensures var r := After(l, s, rotateBytes, keep);
      var renewed := Rotates(l, s, rotateBytes) && s.w.renameOk;
      r.open && r.disk[0]
             == (if renewed then [Header(RotationHeader(s.stamp, l.size))] else l.disk[0]) + [Chunk(s.chunk)]
  {
    if Rotates(l, s, rotateBytes) { RotatedLive(l, s.stamp, s.w, keep); }
  }

  lemma AfterArchives(l: Log, s: Step, rotateBytes: nat, keep: nat, k: nat)
    requires l.open && l.Valid() && s.w.Steady() && s.w.Shifts() && 1 <= k <= keep
    ensures Fetch(After(l, s, rotateBytes, keep).disk, k) ==
            if !Rotates(l, s, rotateBytes) then Fetch(l.disk, k)
            else if k == 1 && !s.w.renameOk then None
            else Fetch(l.disk, k - 1)
  {
    if Rotates(l, s, rotateBytes) { RotatedArchives(l, s.stamp, s.w, keep, k); }
  }

  /** Whatever becomes of the shifts, a final rename that works puts the live log in the first archive's place. */
  lemma RenamedAside(l: Log, stamp: seq<Byte>, w: Weather, keep: nat)
    requires keep >= 1 && l.open && l.Valid() && w.renameOk
    ensures Fetch(Rotated(l, stamp, w, keep).disk, 1) == Some(l.disk[0])
  {
    ShiftKeepsLive(if w.removeOk then l.disk - {keep} else l.disk, keep - 1, w.shiftOk);
    assert Fetch(l.disk, 0) == Some(l.disk[0]);
    assert Fetch(ArchivesAfter(l.disk, w, keep), 0) == Fetch(l.disk, 0);
  }

  /**
   The header of a rotated log counts the bytes of the file that went aside, not the threshold, whatever became of the
   other archives.
   */
  lemma HeaderCountsArchive(l: Log, s: Step, rotateBytes: nat, keep: nat)
    requires keep >= 1 && l.open && l.Tracking() && Rotates(l, s, rotateBytes)
    requires s.w.Steady() && s.w.renameOk
    ensures var d := After(l, s, rotateBytes, keep).disk;
      0 in d && 1 in d && |d[0]| == 2 && d[0][0] == Header(RotationHeader(s.stamp, Size(d[1])))
  {
    AfterLive(l, s, rotateBytes, keep);
    RenamedAside(l, s.stamp, s.w, keep);
    var r, d := Rotated(l, s.stamp, s.w, keep).disk, After(l, s, rotateBytes, keep).disk;
    assert Fetch(r, 1) == Fetch(d, 1);
  }

  // What the files together hold.

  /** The output in archives n down to 1 and then in the live file. */
  function History(d: Disk, n: nat): seq<seq<Byte>> {
    if n == 0 then Output(Content(d, 0)) else Output(Content(d, n)) + History(d, n - 1)
  }

  lemma {:induction false} HistoryUnmoved(before: Disk, after: Disk, n: nat, chunk: seq<Byte>)
    requires Content(after, 0) == Content(before, 0) + [Chunk(chunk)]
    requires forall k: nat :: 1 <= k <= n ==> Fetch(after, k) == Fetch(before, k)
    ensures History(after, n) == History(before, n) + [chunk]
  {
    Appended(Content(before, 0), Chunk(chunk));
    if n > 0 {
      HistoryUnmoved(before, after, n - 1, chunk);
      assert Fetch(after, n) == Fetch(before, n);
      Associate(Output(Content(before, n)), History(before, n - 1), [chunk]);
    }
  }

  lemma {:induction false} HistoryMoved(before: Disk, after: Disk, n: nat, chunk: seq<Byte>)
    requires n >= 1
    requires Output(Content(after, 1)) + Output(Content(after, 0)) == Output(Content(before, 0)) + [chunk]
    requires forall k: nat :: 2 <= k <= n ==> Fetch(after, k) == Fetch(before, k - 1)
    ensures History(after, n) == History(before, n - 1) + [chunk]
  {
    if n == 1 {
      assert History(after, 1) == Output(Content(after, 1)) + Output(Content(after, 0));
    } else {
      HistoryMoved(before, after, n - 1, chunk);
      assert Fetch(after, n) == Fetch(before, n - 1);
      Associate(Output(Content(before, n - 1)), History(before, n - 2), [chunk]);
    }
  }

  /** What one step drops: the output in the oldest archive when it rotates, nothing otherwise. */
  function Dropped(l: Log, s: Step, rotateBytes: nat, keep: nat): seq<seq<Byte>> {
    if Rotates(l, s, rotateBytes) then Output(Content(l.disk, keep)) else []
  }

  lemma RotationConserves(l: Log, s: Step, rotateBytes: nat, keep: nat)
    requires keep >= 1 && l.open && l.Valid() && s.w.Steady() && s.w.Shifts() && Rotates(l, s, rotateBytes)
    ensures History(After(l, s, rotateBytes, keep).disk, keep) == History(l.disk, keep - 1) + [s.chunk]
  {
    var d := After(l, s, rotateBytes, keep).disk;
    forall k: nat | 1 <= k <= keep
      ensures Fetch(d, k) == if k == 1 && !s.w.renameOk then None else Fetch(l.disk, k - 1)
    {
      AfterArchives(l, s, rotateBytes, keep, k);
    }
    assert Fetch(d, 1) == if s.w.renameOk then Fetch(l.disk, 0) else None;
    FirstTwo(l, s, rotateBytes, keep);
    HistoryMoved(l.disk, d, keep, s.chunk);
  }

  /** After a rotation the first archive and the live file hold what the live file held, and the chunk. */
  lemma FirstTwo(l: Log, s: Step, rotateBytes: nat, keep: nat)
    requires keep >= 1 && l.open && l.Valid() && s.w.Steady() && s.w.Shifts() && Rotates(l, s, rotateBytes)
    ensures var d := After(l, s, rotateBytes, keep).disk;
      Output(Content(d, 1)) + Output(Content(d, 0)) == Output(Content(l.disk, 0)) + [s.chunk]
  {
    var d := After(l, s, rotateBytes, keep).disk;
    AfterLive(l, s, rotateBytes, keep);
    AfterArchives(l, s, rotateBytes, keep, 1);
    assert Content(d, 0) == d[0] && Content(l.disk, 0) == l.disk[0];
    if s.w.renameOk {
      assert Fetch(l.disk, 0) == Some(l.disk[0]);
      FreshOutput(Header(RotationHeader(s.stamp, l.size)), s.chunk);
    } else {
      assert Output(Content(d, 1)) == [];
      Appended(l.disk[0], Chunk(s.chunk));
    }
  }

  lemma FreshOutput(header: Write, chunk: seq<Byte>)
    requires header.Header?
    ensures Output([header] + [Chunk(chunk)]) == [chunk]
  {
    assert [header] == [] + [header] && Output([]) == [];
    Appended([], header);
    Appended([header], Chunk(chunk));
  }

  lemma StepConserves(l: Log, s: Step, rotateBytes: nat, keep: nat)
    requires keep >= 1 && l.open && l.Valid() && s.w.Steady() && s.w.Shifts()
    ensures Dropped(l, s, rotateBytes, keep) + History(After(l, s, rotateBytes, keep).disk, keep)
         == History(l.disk, keep) + [s.chunk]
  {
    if Rotates(l, s, rotateBytes) {
      RotationConserves(l, s, rotateBytes, keep);
    } else {
      AfterLive(l, s, rotateBytes, keep);
      HistoryUnmoved(l.disk, After(l, s, rotateBytes, keep).disk, keep, s.chunk);
    }
  }

  // Runs.

  /** The log after a sequence of chunks. */
  function Trace(l: Log, steps: seq<Step>, rotateBytes: nat, keep: nat): (r: Log)
    requires keep >= 1 && l.Valid()
    ensures r.Valid()
  {
    if steps == [] then l
    else After(Trace(l, steps[..|steps| - 1], rotateBytes, keep), steps[|steps| - 1], rotateBytes, keep)
  }

  function Chunks(steps: seq<Step>): seq<seq<Byte>> {
    if steps == [] then [] else Chunks(steps[..|steps| - 1]) + [steps[|steps| - 1].chunk]
  }

  /** Everything a run drops, in the order it goes. */
  function DroppedBy(l: Log, steps: seq<Step>, rotateBytes: nat, keep: nat): seq<seq<Byte>>
    requires keep >= 1 && l.Valid()
  {
    if steps == [] then []
    else
      var done, last := steps[..|steps| - 1], steps[|steps| - 1];
      DroppedBy(l, done, rotateBytes, keep) + Dropped(Trace(l, done, rotateBytes, keep), last, rotateBytes, keep)
  }

  ghost predicate AllSteady(steps: seq<Step>) { forall i :: 0 <= i < |steps| ==> steps[i].w.Steady() }

  lemma {:induction false} RunKeepsTracking(l: Log, steps: seq<Step>, rotateBytes: nat, keep: nat)
    requires keep >= 1 && l.open && l.Tracking() && AllSteady(steps)
    ensures Trace(l, steps, rotateBytes, keep).open && Trace(l, steps, rotateBytes, keep).Tracking()
  {
    if steps != [] {
      var n := |steps| - 1;
      RunKeepsTracking(l, steps[..n], rotateBytes, keep);
      AfterKeepsTracking(Trace(l, steps[..n], rotateBytes, keep), steps[n], rotateBytes, keep);
      AfterLive(Trace(l, steps[..n], rotateBytes, keep), steps[n], rotateBytes, keep);
    }
  }

  /** One more entry on both sides of an account keeps it balanced. */
  lemma Balance<T>(lost: seq<T>, held: seq<T>, first: seq<T>, written: seq<T>, drop: seq<T>, now: seq<T>, more: seq<T>)
    requires lost + held == first + written && drop + now == held + more
    ensures (lost + drop) + now == first + (written + more)
  {
    calc {
      (lost + drop) + now;
      lost + (drop + now);
      (lost + held) + more;
      first + (written + more);
    }
  }

  /**
   Over any run whose archive moves work, what was there and what the child wrote is what was dropped, whole oldest
   archives only, followed by what the files hold: the files hold a suffix of the child's output. Final renames may
   fail.
   */
  lemma {:induction false} RunConserves(l: Log, steps: seq<Step>, rotateBytes: nat, keep: nat)
    requires keep >= 1 && l.open && l.Tracking() && AllSteady(steps)
    requires forall i :: 0 <= i < |steps| ==> steps[i].w.Shifts()
    ensures DroppedBy(l, steps, rotateBytes, keep) + History(Trace(l, steps, rotateBytes, keep).disk, keep)
         == History(l.disk, keep) + Chunks(steps)
  {
    if steps != [] {
      var n := |steps| - 1;
      var m := Trace(l, steps[..n], rotateBytes, keep);
      RunConserves(l, steps[..n], rotateBytes, keep);
      RunKeepsTracking(l, steps[..n], rotateBytes, keep);
      StepConserves(m, steps[n], rotateBytes, keep);
      var now := History(Trace(l, steps, rotateBytes, keep).disk, keep);
      Balance(DroppedBy(l, steps[..n], rotateBytes, keep), History(m.disk, keep), History(l.disk, keep),
              Chunks(steps[..n]), Dropped(m, steps[n], rotateBytes, keep), now, [steps[n].chunk]);
    }
  }

  // What the live file holds, however the renames go.

  function ChunkWrites(steps: seq<Step>): File {
    if steps == [] then [] else ChunkWrites(steps[..|steps| - 1]) + [Chunk(steps[|steps| - 1].chunk)]
  }

  /** Chunk i was preceded by a rotation whose final rename worked. */
  predicate Renewed(l: Log, steps: seq<Step>, i: nat, rotateBytes: nat, keep: nat)
    requires keep >= 1 && l.Valid() && i < |steps|
  {
    Rotates(Trace(l, steps[..i], rotateBytes, keep), steps[i], rotateBytes) && steps[i].w.renameOk
  }

  /**
   Without a successful rotation the live file only grows, by exactly the chunks and no header, whatever becomes of the
   renames that fail and of the archives.
   */
  lemma {:induction false} LiveGrows(l: Log, steps: seq<Step>, rotateBytes: nat, keep: nat)
    requires keep >= 1 && l.open && l.Tracking() && AllSteady(steps)
    requires forall i :: 0 <= i < |steps| ==> !Renewed(l, steps, i, rotateBytes, keep)
    ensures Trace(l, steps, rotateBytes, keep).open
    ensures Trace(l, steps, rotateBytes, keep).disk[0] == l.disk[0] + ChunkWrites(steps)
  {
    if steps != [] {
      var n := |steps| - 1;
      var done := steps[..n];
      forall i | 0 <= i < n ensures !Renewed(l, done, i, rotateBytes, keep) {
        assert !Renewed(l, steps, i, rotateBytes, keep) && done[..i] == steps[..i];
      }
      LiveGrows(l, done, rotateBytes, keep);
      assert !Renewed(l, steps, n, rotateBytes, keep);
      AfterLive(Trace(l, done, rotateBytes, keep), steps[n], rotateBytes, keep);
      assert l.disk[0] + ChunkWrites(steps) == (l.disk[0] + ChunkWrites(done)) + [Chunk(steps[n].chunk)];
    }
  }

  /** A run continues where the run before it ended. */
  lemma {:induction false} TraceConcat(l: Log, a: seq<Step>, b: seq<Step>, rotateBytes: nat, keep: nat)
    requires keep >= 1 && l.Valid()
    ensures Trace(l, a + b, rotateBytes, keep) == Trace(Trace(l, a, rotateBytes, keep), b, rotateBytes, keep)
  {
    if b == [] {
      assert a + b == a;
    } else {
      var n := |b| - 1;
      assert (a + b)[..|a| + n] == a + b[..n];
      TraceConcat(l, a, b[..n], rotateBytes, keep);
    }
  }

  /** From a successful rotation on: its header, the chunk that caused it, and every chunk after it. */
  lemma LiveAfterRotation(m: Log, s: Step, later: seq<Step>, rotateBytes: nat, keep: nat)
    requires keep >= 1 && m.open && m.Tracking() && s.w.Steady() && AllSteady(later)
    requires Rotates(m, s, rotateBytes) && s.w.renameOk
    requires forall i :: 0 <= i < |later| ==> !Renewed(After(m, s, rotateBytes, keep), later, i, rotateBytes, keep)
    ensures var r := Trace(After(m, s, rotateBytes, keep), later, rotateBytes, keep);
      r.open && r.disk[0] == [Header(RotationHeader(s.stamp, m.size)), Chunk(s.chunk)] + ChunkWrites(later)
  {
    AfterLive(m, s, rotateBytes, keep);
    AfterKeepsTracking(m, s, rotateBytes, keep);
    LiveGrows(After(m, s, rotateBytes, keep), later, rotateBytes, keep);
  }

  /** The same within a whole run, whose last successful rotation is the one before s. */
  lemma LiveSinceRotation(l: Log, earlier: seq<Step>, s: Step, later: seq<Step>, rotateBytes: nat, keep: nat)
    requires keep >= 1 && l.open && l.Tracking() && AllSteady(earlier) && s.w.Steady() && AllSteady(later)
    requires Rotates(Trace(l, earlier, rotateBytes, keep), s, rotateBytes) && s.w.renameOk
    requires forall i :: 0 <= i < |later| ==>
      !Renewed(After(Trace(l, earlier, rotateBytes, keep), s, rotateBytes, keep), later, i, rotateBytes, keep)
    ensures var r := Trace(l, earlier + ([s] + later), rotateBytes, keep);
      var archived := Trace(l, earlier, rotateBytes, keep).size;
      r.open && r.disk[0] == [Header(RotationHeader(s.stamp, archived)), Chunk(s.chunk)] + ChunkWrites(later)
  {
    var m := Trace(l, earlier, rotateBytes, keep);
    RunKeepsTracking(l, earlier, rotateBytes, keep);
    LiveAfterRotation(m, s, later, rotateBytes, keep);
    TraceConcat(l, earlier, [s] + later, rotateBytes, keep);
    TraceConcat(m, [s], later, rotateBytes, keep);
    TraceOne(m, s, rotateBytes, keep);
  }

  lemma TraceOne(l: Log, s: Step, rotateBytes: nat, keep: nat)
    requires keep >= 1 && l.Valid()
    ensures Trace(l, [s], rotateBytes, keep) == After(l, s, rotateBytes, keep)
  {
    assert [s][..0] == [];
  }

  /** A rotation whose final rename failed is attempted again on the very next chunk, whatever its length. */
  lemma FailedRenameRetries(l: Log, s: Step, next: Step, rotateBytes: nat, keep: nat)
    requires keep >= 1 && l.Tracking() && s.w.Steady()
    requires Rotates(l, s, rotateBytes) && !s.w.renameOk
    ensures Rotates(After(l, s, rotateBytes, keep), next, rotateBytes)
  {
    AfterLive(l, s, rotateBytes, keep);
    AfterKeepsTracking(l, s, rotateBytes, keep);
    Appended(l.disk[0], Chunk(s.chunk));
  }

  /**
   The price of retrying: each failed attempt still shifts the archives and drops the oldest, and gives nothing in
   return. After n of them the first n places are empty, so `keep` failures in a row leave no archive at all.
   */
  lemma {:induction false} FailedRenamesErode(l: Log, steps: seq<Step>, rotateBytes: nat, keep: nat, k: nat)
    requires keep >= 1 && l.open && l.Tracking() && AllSteady(steps) && steps != []
    requires forall i :: 0 <= i < |steps| ==> steps[i].w.Shifts() && !steps[i].w.renameOk
    requires Rotates(l, steps[0], rotateBytes)
    requires 1 <= k <= keep
    ensures var r := Trace(l, steps, rotateBytes, keep);
      Fetch(r.disk, k) == (if k <= |steps| then None else Fetch(l.disk, k - |steps|)) &&
      forall next: Step :: Rotates(r, next, rotateBytes)
  {
    var n := |steps| - 1;
    var done := steps[..n];
    var before := Trace(l, done, rotateBytes, keep);
    RunKeepsTracking(l, done, rotateBytes, keep);
    if n > 0 { FailedRenamesErode(l, done, rotateBytes, keep, if k > 1 then k - 1 else k); }
    AfterArchives(before, steps[n], rotateBytes, keep, k);
    forall next: Step ensures Rotates(Trace(l, steps, rotateBytes, keep), next, rotateBytes) {
      FailedRenameRetries(before, steps[n], next, rotateBytes, keep);
    }
  }

  // How much room the files take.

  /** Every file the collector keeps is below the threshold. */
  ghost predicate Below(d: Disk, keep: nat, rotateBytes: nat) {
    forall k: nat :: k <= keep ==> Size(Content(d, k)) < rotateBytes
  }

  lemma {:induction false} ShiftKeepsBelow(d: Disk, n: nat, shiftOk: nat -> bool, keep: nat, rotateBytes: nat)
    requires Below(d, keep, rotateBytes) && n < keep
    ensures Below(ShiftFrom(d, n, shiftOk), keep, rotateBytes)
    decreases n
  {
    if n > 0 {
      var moved := ShiftOne(d, n, shiftOk(n));
      forall k: nat | k <= keep ensures Size(Content(moved, k)) < rotateBytes {
        assert Size(Content(d, k)) < rotateBytes && Size(Content(d, n)) < rotateBytes;
        assert Content(moved, k) == Content(d, k) || Content(moved, k) == Content(d, n) || Content(moved, k) == [];
      }
      ShiftKeepsBelow(moved, n - 1, shiftOk, keep, rotateBytes);
    }
  }

  /** A longer number is not written shorter. */
  lemma {:induction false} DecimalGrows(a: nat, b: nat)
    requires a <= b
    ensures |Decimal(a)| <= |Decimal(b)|
  {
    if a >= 10 { DecimalGrows(a / 10, b / 10); }
  }

  /** A header counting fewer bytes than the threshold, and the chunk after it, fit below the threshold. */
  predicate Fits(s: Step, rotateBytes: nat) {
    |RotationHeader(s.stamp, rotateBytes)| + |s.chunk| < rotateBytes
  }

  lemma StepKeepsBelow(l: Log, s: Step, rotateBytes: nat, keep: nat)
    requires keep >= 1 && l.Tracking() && (l.open ==> s.w.renameOk) && Fits(s, rotateBytes)
    requires Below(l.disk, keep, rotateBytes)
    ensures Below(After(l, s, rotateBytes, keep).disk, keep, rotateBytes)
  {
    if !l.open { return; }
    var chunk := Chunk(Taken(s.chunk, s.w.chunkCut));
    var r := After(l, s, rotateBytes, keep);
    if Rotates(l, s, rotateBytes) {
      RotationKeepsBelow(l, s, rotateBytes, keep);
    } else {
      Appended(l.disk[0], chunk);
      forall k: nat | k <= keep ensures Size(Content(r.disk, k)) < rotateBytes {
        assert Size(Content(l.disk, k)) < rotateBytes;
      }
    }
  }

  lemma RotationKeepsBelow(l: Log, s: Step, rotateBytes: nat, keep: nat)
    requires keep >= 1 && l.Tracking() && s.w.renameOk && Fits(s, rotateBytes)
    requires Below(l.disk, keep, rotateBytes) && Rotates(l, s, rotateBytes)
    ensures Below(After(l, s, rotateBytes, keep).disk, keep, rotateBytes)
  {
    var r := After(l, s, rotateBytes, keep);
    var shifted := ArchivesAfter(l.disk, s.w, keep);
    ArchivesStayBelow(l.disk, s.w, keep, rotateBytes);
    assert Size(Content(l.disk, 0)) < rotateBytes;
    DecimalGrows(l.size, rotateBytes);
    HeaderAndChunk(s, l.size);
    forall k: nat | k <= keep ensures Size(Content(r.disk, k)) < rotateBytes {
      assert Size(Content(shifted, k)) < rotateBytes && Size(Content(shifted, 0)) < rotateBytes;
    }
  }

  lemma ArchivesStayBelow(d: Disk, w: Weather, keep: nat, rotateBytes: nat)
    requires keep >= 1 && Below(d, keep, rotateBytes)
    ensures Below(ArchivesAfter(d, w, keep), keep, rotateBytes)
    ensures Fetch(ArchivesAfter(d, w, keep), 0) == Fetch(d, 0)
  {
    var e := if w.removeOk then d - {keep} else d;
    forall k: nat | k <= keep ensures Size(Content(e, k)) < rotateBytes {
      assert Size(Content(d, k)) < rotateBytes;
    }
    ShiftKeepsBelow(e, keep - 1, w.shiftOk, keep, rotateBytes);
    ShiftKeepsLive(e, keep - 1, w.shiftOk);
  }

  lemma HeaderAndChunk(s: Step, archived: nat)
    ensures var header := RotationHeader(s.stamp, archived);
      Size([] + [Header(Taken(header, s.w.headerCut))]) <= |header| &&
      Size([] + [Header(Taken(header, s.w.headerCut))] + [Chunk(Taken(s.chunk, s.w.chunkCut))]) <= |header| + |s.chunk|
  {
    var header := Header(Taken(RotationHeader(s.stamp, archived), s.w.headerCut));
    Appended([], header);
    Appended([] + [header], Chunk(Taken(s.chunk, s.w.chunkCut)));
  }

  function TotalSize(d: Disk, n: nat): nat {
    Size(Content(d, n)) + if n == 0 then 0 else TotalSize(d, n - 1)
  }

  lemma {:induction false} TotalBelow(d: Disk, n: nat, keep: nat, rotateBytes: nat)
    requires Below(d, keep, rotateBytes) && n <= keep
    ensures TotalSize(d, n) < (n + 1) * rotateBytes
  {
    assert Size(Content(d, n)) < rotateBytes;
    if n > 0 { TotalBelow(d, n - 1, keep, rotateBytes); }
  }

  /**
   Over any run in which the live file's renames work, whatever else fails, the log and its archives together stay below
   (keep + 1) times the threshold.
   */
  lemma {:induction false} RunStaysBelow(l: Log, steps: seq<Step>, rotateBytes: nat, keep: nat)
    requires keep >= 1 && l.Tracking() && Below(l.disk, keep, rotateBytes)
    requires forall i :: 0 <= i < |steps| ==> Fits(steps[i], rotateBytes) && steps[i].w.renameOk
    ensures Trace(l, steps, rotateBytes, keep).Tracking()
    ensures Below(Trace(l, steps, rotateBytes, keep).disk, keep, rotateBytes)
    ensures TotalSize(Trace(l, steps, rotateBytes, keep).disk, keep) < (keep + 1) * rotateBytes
  {
    if steps != [] {
      var n := |steps| - 1;
      RunStaysBelow(l, steps[..n], rotateBytes, keep);
      StepKeepsBelow(Trace(l, steps[..n], rotateBytes, keep), steps[n], rotateBytes, keep);
      AfterKeepsTracking(Trace(l, steps[..n], rotateBytes, keep), steps[n], rotateBytes, keep);
    }
    TotalBelow(Trace(l, steps, rotateBytes, keep).disk, keep, keep, rotateBytes);
  }

  // When the log rotates, told by its length and the threshold alone.

  function Lengths(steps: seq<Step>): nat {
    if steps == [] then 0 else Lengths(steps[..|steps| - 1]) + |steps[|steps| - 1].chunk|
  }

  /** What a chunk leaves on disk. */
  function Written(s: Step): Write { Chunk(Taken(s.chunk, s.w.chunkCut)) }

  lemma BelowLeavesAlone(l: Log, s: Step, rotateBytes: nat, keep: nat)
    requires keep >= 1 && l.open && l.Tracking() && Size(l.disk[0]) + |s.chunk| < rotateBytes
    ensures var r := After(l, s, rotateBytes, keep);
      && r.open && r.Tracking() && r.disk == l.disk[0 := l.disk[0] + [Written(s)]]
      && Size(r.disk[0]) <= Size(l.disk[0]) + |s.chunk|
  {
    Appended(l.disk[0], Written(s));
  }

  function Writes(steps: seq<Step>): File {
    if steps == [] then [] else Writes(steps[..|steps| - 1]) + [Written(steps[|steps| - 1])]
  }

  lemma OneMoreWrite(d: Disk, live: File, more: File, w: Write)
    ensures d[0 := live + more][0 := (live + more) + [w]] == d[0 := live + (more + [w])]
  {
    assert (live + more) + [w] == live + (more + [w]);
  }

  /**
   A log that stays below the threshold is left alone: whatever may go wrong, no archive is touched and the live file
   only gains what of each chunk reached the disk.
   */
  lemma {:induction false} NoRotationBelow(l: Log, steps: seq<Step>, rotateBytes: nat, keep: nat)
    requires keep >= 1 && l.open && l.Tracking() && Size(l.disk[0]) + Lengths(steps) < rotateBytes
    ensures var r := Trace(l, steps, rotateBytes, keep);
      && r.open && r.Tracking() && Size(r.disk[0]) <= Size(l.disk[0]) + Lengths(steps)
      && r.disk == l.disk[0 := l.disk[0] + Writes(steps)]
  {
    if steps == [] {
      assert l.disk[0] + [] == l.disk[0];
    } else {
      var n := |steps| - 1;
      NoRotationBelow(l, steps[..n], rotateBytes, keep);
      BelowLeavesAlone(Trace(l, steps[..n], rotateBytes, keep), steps[n], rotateBytes, keep);
      OneMoreWrite(l.disk, l.disk[0], Writes(steps[..n]), Written(steps[n]));
    }
  }

  lemma {:induction false} WrittenWhole(steps: seq<Step>)
    requires AllSteady(steps)
    ensures Writes(steps) == ChunkWrites(steps)
  {
    if steps != [] {
      assert steps[|steps| - 1].w.Steady();
      WrittenWhole(steps[..|steps| - 1]);
    }
  }

  /** When nothing goes wrong, these are the chunks themselves. */
  lemma BelowThresholdAppends(l: Log, steps: seq<Step>, rotateBytes: nat, keep: nat)
    requires keep >= 1 && l.open && l.Tracking() && AllSteady(steps)
    requires Size(l.disk[0]) + Lengths(steps) < rotateBytes
    ensures var r := Trace(l, steps, rotateBytes, keep);
      && r.open && r.disk[0] == l.disk[0] + ChunkWrites(steps)
      && forall k: nat :: k >= 1 ==> Fetch(r.disk, k) == Fetch(l.disk, k)
  {
    NoRotationBelow(l, steps, rotateBytes, keep);
    WrittenWhole(steps);
  }

  /**
   A chunk that would reach the threshold opens a new log: a header that says when and how many bytes went aside, then
   the chunk. The old log is archive 1 and every archive before it has moved up one place.
   */
  lemma ReachingRotates(l: Log, s: Step, rotateBytes: nat, keep: nat, k: nat)
    requires keep >= 1 && l.open && l.Tracking() && Size(l.disk[0]) + |s.chunk| >= rotateBytes
    requires s.w.Steady() && s.w.renameOk
    ensures var r := After(l, s, rotateBytes, keep);
      && r.open && Fetch(r.disk, 1) == Some(l.disk[0])
      && r.disk[0] == [Header(Ascii("--- rotated ") + s.stamp + Ascii(" (previous ")
                              + Ascii(Decimal(Size(l.disk[0]))) + Ascii(" bytes archived) ---\n")),
                       Chunk(s.chunk)]
      && (s.w.Shifts() && 2 <= k <= keep ==> Fetch(r.disk, k) == Fetch(l.disk, k - 1))
  {
    AfterLive(l, s, rotateBytes, keep);
    RenamedAside(l, s.stamp, s.w, keep);
    var m, r := Rotated(l, s.stamp, s.w, keep).disk, After(l, s, rotateBytes, keep).disk;
    assert Fetch(m, 1) == Fetch(r, 1);
    if s.w.Shifts() && 2 <= k <= keep { AfterArchives(l, s, rotateBytes, keep, k); }
  }

  /** Each character of an ASCII text is one byte of that value. */
  lemma AsciiBytes(s: string, i: nat)
    requires i < |s| && s[i] < '\U{0080}'
    ensures |Ascii(s)| == |s| && Ascii(s)[i] == s[i] as int
  {
  }

  /** A rotation whose final rename fails goes on with the file it had, which gains the chunk. */
  lemma FailedRenameGoesOn(l: Log, s: Step, rotateBytes: nat, keep: nat)
    requires keep >= 1 && l.open && l.Tracking() && s.w.Steady() && !s.w.renameOk
    ensures var r := After(l, s, rotateBytes, keep); r.open && r.disk[0] == l.disk[0] + [Chunk(s.chunk)]
  {
    AfterLive(l, s, rotateBytes, keep);
  }

  /** A log that cannot be reopened takes nothing more, and neither it nor its archives change any further. */
  lemma {:induction false} ClosedStaysClosed(l: Log, steps: seq<Step>, rotateBytes: nat, keep: nat)
    requires keep >= 1 && l.Valid() && !l.open
    ensures Trace(l, steps, rotateBytes, keep) == l
  {
    if steps != [] { ClosedStaysClosed(l, steps[..|steps| - 1], rotateBytes, keep); }
  }

  /** The chunk rotates the log: it is open and would reach the threshold. */
  predicate Turns(l: Log, s: Step, rotateBytes: nat) { l.open && l.size + |s.chunk| >= rotateBytes }

  /** One of the writes of a step falls short, or the log cannot be reopened. */
  predicate FallsShort(l: Log, s: Step, rotateBytes: nat) {
    if Turns(l, s, rotateBytes) && !s.w.openOk then true
    else
      || (s.w.chunkCut.Some? && s.w.chunkCut.value < |s.chunk|)
      || (Turns(l, s, rotateBytes) && s.w.renameOk && s.w.headerCut.Some?
          && s.w.headerCut.value < |RotationHeader(s.stamp, l.size)|)
  }

  /** A failure is remembered, and nothing else is taken for one; only a log that cannot be reopened is given up. */
  lemma FailureRemembered(l: Log, s: Step, rotateBytes: nat, keep: nat)
    requires keep >= 1 && l.Tracking()
    ensures var r := After(l, s, rotateBytes, keep);
      && (r.failed <==> l.failed || (l.open && FallsShort(l, s, rotateBytes)))
      && (r.open <==> l.open && (Turns(l, s, rotateBytes) ==> s.w.openOk))
  {
    if Turns(l, s, rotateBytes) {
      ShiftKeepsLive(if s.w.removeOk then l.disk - {keep} else l.disk, keep - 1, s.w.shiftOk);
      assert Fetch(ArchivesAfter(l.disk, s.w, keep), 0) == Fetch(l.disk, 0);
    }
  }
}
