/** What every interleaving of one entry's steps keeps. */
module ProtocolSafety {
  import opened Basics
  import opened Entry
  import opened Protocol

  /** A stop between its first and its last locked section. */
  predicate Stopping(op: Op) { op.Asked? || op.Forced? || op.Closing? || op.Finishing? }

  /** The generation the entry is running. */
  predicate Current(live: Live, gen: nat) { live.status == Running && live.gen == gen }

  /** One generation's account: what was written, closed and decided for it, and whether it may still be alive. */
  predicate ProcOk(p: Proc, gen: nat, live: Live, op: Op) {
    && (p.watcher != Watching ==> !p.running)
    && p.records <= (if p.watcher == Watching then 0 else 1)
    && p.exitedCloses == (if p.watcher == Closed then 1 else 0)
    && p.groupCloses == (if p.grouped && (live.job != Some(gen) || op.Finishing?) then 1 else 0)
    && |p.ends| == (if Current(live, gen) then 0 else 1)
    && (p.ends != [] ==> (p.ends[0] == Stopped <==> p.asked))
    && (p.ends != [] && !p.asked ==> p.watcher != Watching && p.ends[0] == StatusOf(p.code))
    && (p.running && !Current(live, gen) ==> p.reported)
    && (p.reported ==> p.asked && !Current(live, gen))
  }

  predicate RunningOk(s: System)
    requires Sound(s) && s.live.status == Running
  {
    var p := s.Of(s.live.gen);
    && s.live.pid == Some(p.pid) && s.live.startedAt.Some? && s.live.exited == Some(s.live.gen)
    && s.live.job == (if p.grouped then Some(s.live.gen) else None)
    && (s.live.stopRequested <==> Stopping(s.op)) && (p.asked <==> s.live.stopRequested)
    && (!s.live.stopRequested ==> p.watcher == Watching)
    && (if p.watcher == Watching then s.live.exitCode.None? && s.live.endedAt.None?
        else s.live.exitCode == Some(p.code) && s.live.endedAt.Some?)
  }

  /** What the fields say once the entry is not running. */
  predicate RestOk(s: System)
    requires Sound(s) && s.live.status != Running
  {
    && s.live.job.None? && !Stopping(s.op)
    && (s.live.gen > 0 && s.Of(s.live.gen).watcher == Watching ==> s.Of(s.live.gen).reported && s.live.stopRequested)
    && (s.live.status == Failed ==> NeverStarted(s.live, s.live.gen > 0 && s.Of(s.live.gen).reported))
    && (s.live.status != Failed && s.live.gen > 0 ==> RanAndEnded(s.live, s.Of(s.live.gen)))
    && (s.live.gen == 0 && s.live.status != Failed ==>
          (s.live.status == Stopped && s.live.pid.None? && s.live.exitCode.None?
           && s.live.startedAt.None? && s.live.endedAt.None?))
  }

  predicate NeverStarted(live: Live, abandoned: bool) {
    live.pid.None? && live.startedAt.None? && live.endedAt.Some? && (live.exitCode.Some? ==> abandoned)
  }

  predicate RanAndEnded(live: Live, p: Proc) {
    && live.pid == Some(p.pid) && live.startedAt.Some? && live.endedAt.Some?
    && (!p.reported ==> live.exitCode == Some(p.code))
    && (live.status == Exited ==> p.code == 0 && !p.asked)
    && (live.status == Killed ==> p.code != 0 && !p.asked)
    && (live.status == Stopped ==> p.asked)
  }

  predicate OpOk(s: System)
    requires Sound(s)
  {
    && (Stopping(s.op) ==> s.op.gen == s.live.gen)
    && (s.op.Asked? || s.op.Forced? ==> s.op.exited == s.live.exited && s.op.job == s.live.job)
    && (s.op.Closing? ==> s.op.job == s.live.job)
    && (s.op.Closing? || s.op.Finishing? ==> (s.op.waited ==> s.Of(s.op.gen).watcher == Closed))
    && (s.op.Ready? || (s.op.Leaving? && s.op.kind in {StopOp, DeleteOp}) ==> s.live.status != Running)
    && (s.op.Ready? || Stopping(s.op) ==> s.op.kind != RunOp)
    && (s.registering ==> s.op.Free? && s.live.gen == 0 && s.live.status == Stopped)
  }

  ghost predicate Inv(s: System) {
    && Sound(s)
    && (if s.live.status == Running then RunningOk(s) else RestOk(s))
    && OpOk(s) && (s.live.status != Failed ==> s.live.error == "")
    && forall g :: 1 <= g <= |s.procs| ==> ProcOk(s.Of(g), g, s.live, s.op)
  }

  /** A first start runs without the operation lock, so operations are only followed once it is over. */
  predicate InOrder(s: System, a: Action) { a.Enter? ==> !s.registering }

  lemma QuietStep(s: System, a: Action)
    requires Inv(s) && Enabled(s, a) && InOrder(s, a)
    requires a.Lookup? || a.Enter? || a.Wait? || a.WaitAgain? || a.Deregister? || a.Leave?
    ensures Inv(Next(s, a))
  {
    var r := Next(s, a);
    forall g | 1 <= g <= |r.procs| ensures ProcOk(r.Of(g), g, r.live, r.op) {
      assert ProcOk(s.Of(g), g, s.live, s.op);
    }
  }

  lemma AskKeepsInv(s: System)
    requires Inv(s) && Enabled(s, Ask)
    ensures Inv(AskStep(s))
  {
    var r := AskStep(s);
    forall g | 1 <= g <= |r.procs| ensures ProcOk(r.Of(g), g, r.live, r.op) {
      assert ProcOk(s.Of(g), g, s.live, s.op);
    }
  }

  lemma CloseKeepsInv(s: System)
    requires Inv(s) && Enabled(s, CloseGroup)
    ensures Inv(CloseStep(s))
  {
    var r := CloseStep(s);
    forall g | 1 <= g <= |r.procs| ensures ProcOk(r.Of(g), g, r.live, r.op) {
      assert ProcOk(s.Of(g), g, s.live, s.op);
    }
  }

  lemma FinishKeepsInv(s: System, at: int)
    requires Inv(s) && Enabled(s, Finish(at))
    ensures Inv(FinishStep(s, at))
  {
    var r := FinishStep(s, at);
    forall g | 1 <= g <= |r.procs| ensures ProcOk(r.Of(g), g, r.live, r.op) {
      assert ProcOk(s.Of(g), g, s.live, s.op);
    }
  }

  lemma FailedSpawnKeepsInv(s: System, reason: string, at: int, op: Op)
    requires Inv(s) && s.live.status != Running && (op.Free? || op == Leaving(RunOp) || op == Leaving(RestartOp))
    ensures Inv(Spawn(s, Down(reason), at).(op := op, registering := false))
  {
    var r := Spawn(s, Down(reason), at).(op := op, registering := false);
    forall g | 1 <= g <= |r.procs| ensures ProcOk(r.Of(g), g, r.live, r.op) {
      assert ProcOk(s.Of(g), g, s.live, s.op);
    }
  }

  lemma SpawnKeepsInv(s: System, pid: nat, grouped: bool, at: int, op: Op)
    requires Inv(s) && s.live.status != Running && (op.Free? || op == Leaving(RunOp) || op == Leaving(RestartOp))
    ensures Inv(Spawn(s, Up(pid, grouped), at).(op := op, registering := false))
  {
    var r := Spawn(s, Up(pid, grouped), at).(op := op, registering := false);
    forall g | 1 <= g <= |r.procs| ensures ProcOk(r.Of(g), g, r.live, r.op) {
      if g <= |s.procs| {
        assert ProcOk(s.Of(g), g, s.live, s.op) && r.Of(g) == s.Of(g);
      }
    }
  }

  lemma AnySpawnKeepsInv(s: System, result: Spawned, at: int, op: Op)
    requires Inv(s) && s.live.status != Running && (op.Free? || op == Leaving(RunOp) || op == Leaving(RestartOp))
    ensures Inv(Spawn(s, result, at).(op := op, registering := false))
  {
    match result
    case Up(pid, grouped) => SpawnKeepsInv(s, pid, grouped, at, op);
    case Down(reason) => FailedSpawnKeepsInv(s, reason, at, op);
  }

  lemma EndsKeepsInv(s: System, gen: nat, code: int)
    requires Inv(s) && Enabled(s, ProcessEnds(gen, code))
    ensures Inv(Next(s, ProcessEnds(gen, code)))
  {
    var r := Next(s, ProcessEnds(gen, code));
    forall g | 1 <= g <= |r.procs| ensures ProcOk(r.Of(g), g, r.live, r.op) {
      assert ProcOk(s.Of(g), g, s.live, s.op);
    }
  }

  /** The watcher of an older generation, or one whose process is being stopped, leaves the status alone. */
  lemma RecordAside(s: System, gen: nat, at: int)
    requires Inv(s) && Enabled(s, Record(gen, at)) && (s.live.gen != gen || s.live.stopRequested)
    ensures Inv(RecordStep(s, gen, at))
  {
    var r := RecordStep(s, gen, at);
    assert ProcOk(s.Of(gen), gen, s.live, s.op);
    forall g | 1 <= g <= |r.procs| ensures ProcOk(r.Of(g), g, r.live, r.op) {
      assert ProcOk(s.Of(g), g, s.live, s.op);
    }
  }

  lemma RecordEnd(s: System, gen: nat, at: int)
    requires Inv(s) && Enabled(s, Record(gen, at)) && s.live.gen == gen && !s.live.stopRequested
    ensures Inv(RecordStep(s, gen, at))
  {
    var r := RecordStep(s, gen, at);
    assert ProcOk(s.Of(gen), gen, s.live, s.op);
    assert Current(s.live, gen);
    forall g | 1 <= g <= |r.procs| ensures ProcOk(r.Of(g), g, r.live, r.op) {
      assert ProcOk(s.Of(g), g, s.live, s.op);
    }
  }

  lemma RecordKeepsInv(s: System, gen: nat, at: int)
    requires Inv(s) && Enabled(s, Record(gen, at))
    ensures Inv(RecordStep(s, gen, at))
  {
    if s.live.gen == gen && !s.live.stopRequested { RecordEnd(s, gen, at); } else { RecordAside(s, gen, at); }
  }

  lemma CloseExitedKeepsInv(s: System, gen: nat)
    requires Inv(s) && Enabled(s, CloseExited(gen))
    ensures Inv(Next(s, CloseExited(gen)))
  {
    var r := Next(s, CloseExited(gen));
    forall g | 1 <= g <= |r.procs| ensures ProcOk(r.Of(g), g, r.live, r.op) {
      assert ProcOk(s.Of(g), g, s.live, s.op);
    }
  }

  lemma StartKeepsInv(s: System, result: Spawned, at: int)
    requires Inv(s) && Enabled(s, Start(result, at))
    ensures Inv(StartStep(s, result, at))
  {
    var r := StartStep(s, result, at);
    if s.live.status == Running {
      forall g | 1 <= g <= |r.procs| ensures ProcOk(r.Of(g), g, r.live, r.op) {
        assert ProcOk(s.Of(g), g, s.live, s.op);
      }
    } else {
      AnySpawnKeepsInv(s, result, at, Leaving(s.op.kind));
      assert r == Spawn(s, result, at).(op := Leaving(s.op.kind), registering := false);
    }
  }

  /** No step breaks the invariant, whatever the other threads do meanwhile. */
  lemma StepKeepsInv(s: System, a: Action)
    requires Inv(s) && Enabled(s, a) && InOrder(s, a)
    ensures Inv(Next(s, a))
  {
    match a
    case Ask => AskKeepsInv(s);
    case CloseGroup => CloseKeepsInv(s);
    case Finish(at) => FinishKeepsInv(s, at);
    case Start(result, at) => StartKeepsInv(s, result, at);
    case RegisterStart(result, at) => AnySpawnKeepsInv(s, result, at, Free);
    case ProcessEnds(gen, code) => EndsKeepsInv(s, gen, code);
    case Record(gen, at) => RecordKeepsInv(s, gen, at);
    case CloseExited(gen) => CloseExitedKeepsInv(s, gen);
    case _ => QuietStep(s, a);
  }
}
