/**
 The first start of a new registration takes no operation lock. Operations that find the entry meanwhile run beside
 it. This is exactly when that loses a process, in that state or any later one, and exactly when it leaves one running
 on an entry that has been deleted.
 */
module FirstStart {
  import opened Basics
  import opened Entry
  import opened Protocol
  import opened ProtocolSafety
  import opened ProtocolRuns

  /** The invariant of an entry whose first start is still to come. */
  ghost predicate InvBefore(s: System) { s.registering && Inv(s.(registering := false)) }

  lemma StepBefore(s: System, a: Action)
    requires InvBefore(s) && Enabled(s, a) && !a.RegisterStart?
    ensures InvBefore(Next(s, a))
  {
    StepApart(s, a);
    StepKeepsInv(s.(registering := false), a);
  }

  /** The step does not look at whether the first start is still to come. */
  predicate Apart(s: System, a: Action)
    requires Sound(s) && Enabled(s, a) && !a.RegisterStart?
  {
    && Next(s.(registering := false), a) == Next(s, a).(registering := false)
    && Next(s, a).registering == s.registering
  }

  lemma OperationApart(s: System, a: Action)
    requires Sound(s) && Enabled(s, a) && (a.Ask? || a.Finish? || a.Start?)
    ensures Apart(s, a)
  {
  }

  lemma ProcessApart(s: System, a: Action)
    requires Sound(s) && Enabled(s, a) && (a.CloseGroup? || a.ProcessEnds? || a.CloseExited?)
    ensures Apart(s, a)
  {
  }

  lemma RecordApart(s: System, a: Action)
    requires Sound(s) && Enabled(s, a) && a.Record?
    ensures Apart(s, a)
  {
  }

  lemma StepApart(s: System, a: Action)
    requires Sound(s) && Enabled(s, a) && !a.RegisterStart?
    ensures Apart(s, a)
  {
    match a
    case Ask | Finish(_) | Start(_, _) => OperationApart(s, a);
    case CloseGroup | ProcessEnds(_, _) | CloseExited(_) => ProcessApart(s, a);
    case Record(_, _) => RecordApart(s, a);
    case _ =>
  }

  /** Up to the first start, operations may do as they like. */
  lemma {:induction false} RunBefore(s: System, actions: seq<Action>)
    requires InvBefore(s) && Valid(s, actions) && NoFirstStart(actions)
    ensures InvBefore(After(s, actions))
    decreases |actions|
  {
    if actions != [] {
      StepBefore(s, actions[0]);
      RunBefore(Next(s, actions[0]), actions[1..]);
    }
  }

  // What is enough to lose no process from here on.

  /** A stop that is under way while something runs is about that run. */
  predicate StopFits(s: System)
    requires Sound(s) && Stopping(s.op) && s.live.status == Running
  {
    && s.op.gen == s.live.gen && s.live.stopRequested
    && (s.op.Asked? || s.op.Forced? ==> s.op.exited == Some(s.live.gen))
    && (s.op.Closing? || s.op.Finishing? ==> (s.op.waited ==> s.Of(s.op.gen).watcher == Closed))
  }

  predicate Accounted(p: Proc, gen: nat, live: Live) {
    p.running ==> p.watcher == Watching && (Current(live, gen) || p.reported)
  }

  ghost predicate Kept(s: System) {
    && Sound(s) && !s.registering
    && (s.live.status == Running ==> s.live.exited == Some(s.live.gen))
    && (s.live.status == Running && Stopping(s.op) ==> StopFits(s))
    && (s.op == Ready(RestartOp) ==> s.live.status != Running)
    && forall g :: 1 <= g <= |s.procs| ==> Accounted(s.Of(g), g, s.live)
  }

  lemma KeptOperation(s: System, a: Action)
    requires Kept(s) && Enabled(s, a) && !a.Start? && !a.Record? && !a.Finish?
    ensures Kept(Next(s, a))
  {
    var r := Next(s, a);
    forall g | 1 <= g <= |r.procs| ensures Accounted(r.Of(g), g, r.live) {
      assert Accounted(s.Of(g), g, s.live);
    }
  }

  lemma KeptStart(s: System, result: Spawned, at: int)
    requires Kept(s) && Enabled(s, Start(result, at))
    ensures Kept(Next(s, Start(result, at)))
  {
    var r := Next(s, Start(result, at));
    forall g | 1 <= g <= |r.procs| ensures Accounted(r.Of(g), g, r.live) {
      if g <= |s.procs| { assert Accounted(s.Of(g), g, s.live) && r.Of(g) == s.Of(g); }
    }
  }

  lemma KeptRecord(s: System, gen: nat, at: int)
    requires Kept(s) && Enabled(s, Record(gen, at))
    ensures Kept(Next(s, Record(gen, at)))
  {
    var r := Next(s, Record(gen, at));
    forall g | 1 <= g <= |r.procs| ensures Accounted(r.Of(g), g, r.live) {
      assert Accounted(s.Of(g), g, s.live);
    }
  }

  lemma KeptFinish(s: System, at: int)
    requires Kept(s) && Enabled(s, Finish(at))
    ensures Kept(Next(s, Finish(at)))
  {
    var r := Next(s, Finish(at));
    forall g | 1 <= g <= |r.procs| ensures Accounted(r.Of(g), g, r.live) {
      assert Accounted(s.Of(g), g, s.live) && Accounted(s.Of(s.op.gen), s.op.gen, s.live);
    }
  }

  lemma {:induction false} KeptRun(s: System, actions: seq<Action>)
    requires Kept(s) && Valid(s, actions)
    ensures Kept(After(s, actions)) && NoneLost(After(s, actions))
    decreases |actions|
  {
    if actions != [] {
      match actions[0] {
        case Start(result, at) => KeptStart(s, result, at);
        case Record(gen, at) => KeptRecord(s, gen, at);
        case Finish(at) => KeptFinish(s, at);
        case _ => KeptOperation(s, actions[0]);
      }
      KeptRun(Next(s, actions[0]), actions[1..]);
    } else {
      forall g | 1 <= g <= |s.procs| && s.Of(g).running ensures Current(s.live, g) || s.Of(g).reported {
        assert Accounted(s.Of(g), g, s.live);
      }
    }
  }

  // The first start.

  /**
   Nothing alive is running; and if a process comes of the start, no stop is under way and no restart past its own.
   */
  predicate MayFirstStart(s: System, result: Spawned)
    requires Sound(s)
  {
    && !(s.live.status == Running && s.Of(s.live.gen).running)
    && (result.Up? ==> !Stopping(s.op) && s.op != Ready(RestartOp))
  }

  ghost predicate NeverLoses(s: System)
    requires Sound(s)
  {
    forall more: seq<Action> :: Valid(s, more) ==> NoneLost(After(s, more))
  }

  lemma FirstStartKept(s: System, result: Spawned, at: int)
    requires InvBefore(s) && MayFirstStart(s, result)
    ensures Kept(Next(s, RegisterStart(result, at)))
  {
    var r, t := Next(s, RegisterStart(result, at)), s.(registering := false);
    forall g | 1 <= g <= |r.procs| ensures Accounted(r.Of(g), g, r.live) {
      if g <= |s.procs| { assert ProcOk(t.Of(g), g, t.live, t.op) && r.Of(g) == t.Of(g); }
    }
  }

  /** The process that was running is lost at once. */
  lemma LosesNow(s: System, result: Spawned, at: int)
    requires InvBefore(s) && s.live.status == Running && s.Of(s.live.gen).running
    ensures !NoneLost(Next(s, RegisterStart(result, at)))
  {
    var r, t, g := Next(s, RegisterStart(result, at)), s.(registering := false), s.live.gen;
    assert ProcOk(t.Of(g), g, t.live, t.op) && r.Of(g) == s.Of(g);
  }

  /** A restart past its stop starts another process over the one just started. */
  lemma RestartLoses(r: System)
    requires Sound(r) && r.op == Ready(RestartOp) && r.live.gen >= 1
    requires r.Of(r.live.gen).running && !r.Of(r.live.gen).reported
    ensures !NeverLoses(r)
  {
    var g, a := r.live.gen, Start(Up(0, false), 0);
    Prepend(r, a, []);
    assert Next(r, a).Of(g) == r.Of(g);
    assert Valid(r, [a] + []) && !NoneLost(After(r, [a] + []));
  }

  /** A stop of an older run ends by writing `stopped` over the one just started. */
  lemma StopLoses(r: System)
    requires Sound(r) && Stopping(r.op) && r.op.gen != r.live.gen && r.live.gen >= 1
    requires r.Of(r.live.gen).running && !r.Of(r.live.gen).reported
    ensures !NeverLoses(r)
  {
    var g := r.live.gen;
    var more := GiveUp(r);
    var end := After(r, more);
    assert SameProcess(r.Of(g), end.Of(g)) && !end.Of(g).reported;
    assert Valid(r, more) && !NoneLost(end);
  }

  /**
   Whatever operations came before it, the first start loses a process, then or in some later state, exactly when it
   finds a live one running, or starts one while a stop is under way or a restart is past its stop.
   */
  lemma FirstStartSafeIff(before: seq<Action>, result: Spawned, at: int)
    requires Valid(NewEntry(true), before) && NoFirstStart(before)
    ensures var s := After(NewEntry(true), before);
      s.registering && (NeverLoses(Next(s, RegisterStart(result, at))) <==> MayFirstStart(s, result))
  {
    RunBefore(NewEntry(true), before);
    AnyFirstStart(After(NewEntry(true), before), result, at);
  }

  lemma AnyFirstStart(s: System, result: Spawned, at: int)
    requires InvBefore(s)
    ensures NeverLoses(Next(s, RegisterStart(result, at))) <==> MayFirstStart(s, result)
  {
    var r := Next(s, RegisterStart(result, at));
    if MayFirstStart(s, result) {
      FirstStartKept(s, result, at);
      forall more: seq<Action> | Valid(r, more) ensures NoneLost(After(r, more)) {
        KeptRun(r, more);
      }
    } else if s.live.status == Running && s.Of(s.live.gen).running {
      LosesNow(s, result, at);
      assert Valid(r, []) && !NoneLost(After(r, []));
    } else if s.op == Ready(RestartOp) {
      RestartLoses(r);
    } else {
      StopLoses(r);
    }
  }

  // Out of reach.

  /** The process runs, but the entry is gone from the manager, so no operation that begins now can find it. */
  predicate Stranded(s: System, gen: nat)
    requires Sound(s) && 1 <= gen <= |s.procs|
  {
    Current(s.live, gen) && s.Of(gen).running && !s.registered
  }

  /** While the entry runs it, no delete is past its stop. */
  predicate InReach(s: System, gen: nat) {
    && Sound(s) && !s.registering && 1 <= gen <= |s.procs|
    && (Current(s.live, gen) ==> s.registered && s.op != Ready(DeleteOp))
  }

  lemma StepKeepsReach(s: System, a: Action, gen: nat)
    requires InReach(s, gen) && Enabled(s, a)
    ensures InReach(Next(s, a), gen)
  {
  }

  lemma {:induction false} RunKeepsReach(s: System, actions: seq<Action>, gen: nat)
    requires InReach(s, gen) && Valid(s, actions)
    ensures InReach(After(s, actions), gen)
    decreases |actions|
  {
    if actions != [] {
      StepKeepsReach(s, actions[0], gen);
      RunKeepsReach(Next(s, actions[0]), actions[1..], gen);
    }
  }

  ghost predicate GetsStranded(s: System, gen: nat)
    requires Sound(s)
  {
    exists more: seq<Action> ::
      Valid(s, more) && 1 <= gen <= |After(s, more).procs| && Stranded(After(s, more), gen)
  }

  /** The first start, when it comes now and succeeds, gets its process stranded. */
  ghost predicate StrandsIts(s: System, pid: nat, grouped: bool, at: int)
    requires Sound(s) && s.registering
  {
    GetsStranded(Next(s, RegisterStart(Up(pid, grouped), at)), s.live.gen + 1)
  }

  /**
   Whatever operations came before it, the process of the first start is, then or in some later state, left running on
   an entry that is gone exactly when the entry was gone already or a delete is past its stop.
   */
  lemma FirstStartStrandsIff(before: seq<Action>, pid: nat, grouped: bool, at: int)
    requires Valid(NewEntry(true), before) && NoFirstStart(before)
    ensures var s := After(NewEntry(true), before);
      s.registering && (StrandsIts(s, pid, grouped, at) <==> !s.registered || s.op == Ready(DeleteOp))
  {
    RunBefore(NewEntry(true), before);
    AnyStrands(After(NewEntry(true), before), pid, grouped, at);
  }

  lemma AnyStrands(s: System, pid: nat, grouped: bool, at: int)
    requires InvBefore(s)
    ensures StrandsIts(s, pid, grouped, at) <==> !s.registered || s.op == Ready(DeleteOp)
  {
    var r := Next(s, RegisterStart(Up(pid, grouped), at));
    if !s.registered {
      assert Valid(r, []) && Stranded(After(r, []), s.live.gen + 1);
    } else if s.op == Ready(DeleteOp) {
      DeleteStrands(r, s.live.gen + 1);
    } else {
      NeverStranded(r, s.live.gen + 1);
    }
  }

  lemma DeleteStrands(r: System, gen: nat)
    requires Sound(r) && r.op == Ready(DeleteOp) && 1 <= gen <= |r.procs|
    requires Current(r.live, gen) && r.Of(gen).running
    ensures GetsStranded(r, gen)
  {
    Prepend(r, Deregister, []);
    assert Valid(r, [Deregister] + []) && Stranded(After(r, [Deregister] + []), gen);
  }

  lemma NeverStranded(r: System, gen: nat)
    requires InReach(r, gen)
    ensures !GetsStranded(r, gen)
  {
    forall more: seq<Action> | Valid(r, more)
      ensures 1 <= gen <= |After(r, more).procs| && !Stranded(After(r, more), gen)
    {
      RunKeepsReach(r, more, gen);
    }
  }

  /** From an entry that is gone, with no operation that had found it, all that can happen is that its processes end. */
  lemma OutOfReach(s: System, a: Action)
    requires Sound(s) && Enabled(s, a)
    requires !s.registered && !s.registering && s.op.Free? && s.looked == multiset{}
    ensures a.ProcessEnds? || a.Record? || a.CloseExited?
    ensures var r := Next(s, a); !r.registered && !r.registering && r.op.Free? && r.looked == multiset{}
  {
  }

  // Each of them happens.

  /** What a run up to the first start has led to. */
  ghost predicate Reached(s: System) {
    exists before: seq<Action> ::
      Valid(NewEntry(true), before) && NoFirstStart(before) && After(NewEntry(true), before) == s
  }

  /** The first start loses a process: at once, or by what the operation under way still does. */
  ghost predicate Loses(s: System, atOnce: bool) {
    && Sound(s) && s.registering
    && var r := Next(s, RegisterStart(Up(2, true), 0));
       !NeverLoses(r) && (atOnce <==> !NoneLost(r))
  }

  lemma ReachedLoses(before: seq<Action>)
    requires Valid(NewEntry(true), before) && NoFirstStart(before)
    requires !MayFirstStart(After(NewEntry(true), before), Up(2, true))
    ensures var s := After(NewEntry(true), before);
      Reached(s) && Loses(s, s.live.status == Running && s.Of(s.live.gen).running)
  {
    var s := After(NewEntry(true), before);
    RunBefore(NewEntry(true), before);
    AnyFirstStart(s, Up(2, true), 0);
    if s.live.status == Running && s.Of(s.live.gen).running {
      LosesNow(s, Up(2, true), 0);
    } else {
      NotYetLost(s, Up(2, true), 0);
    }
  }

  lemma NotYetLost(s: System, result: Spawned, at: int)
    requires InvBefore(s) && !(s.live.status == Running && s.Of(s.live.gen).running) && result.Up?
    ensures NoneLost(Next(s, RegisterStart(result, at)))
  {
    var r, t := Next(s, RegisterStart(result, at)), s.(registering := false);
    forall g | 1 <= g <= |r.procs| && r.Of(g).running ensures Current(r.live, g) || r.Of(g).reported {
      if g <= |s.procs| { assert ProcOk(t.Of(g), g, t.live, t.op) && r.Of(g) == t.Of(g); }
    }
  }

  /** The listing shows the entry, a resume starts it, and then its first start comes. */
  lemma RaceWithRun()
    ensures exists s: System :: Reached(s) && s.op.Free? && Loses(s, true)
  {
    var before := RunIt(NewEntry(true), Up(1, true));
    ReachedLoses(before);
  }

  /** A restart has found nothing to stop when the first start comes, and starts the entry again. */
  lemma RaceWithRestart()
    ensures exists s: System :: Reached(s) && s.op == Ready(RestartOp) && Loses(s, false)
  {
    var begin := BeginIt(NewEntry(true), RestartOp);
    var s := After(NewEntry(true), begin);
    Prepend(s, Ask, []);
    Follow(NewEntry(true), begin, [Ask] + []);
    ReachedLoses(begin + ([Ask] + []));
  }

  /**
   A stop has begun and its process has ended when the first start comes, and the stop takes the new one for stopped.
   */
  lemma RaceWithStop()
    ensures exists s: System :: Reached(s) && s.op.Asked? && Loses(s, false)
  {
    var n := NewEntry(true);
    var run := RunIt(n, Up(1, true));
    var rest := StopAndEnd(Spawn(n, Up(1, true), 0));
    Follow(n, run, rest);
    ReachedLoses(run + rest);
  }

  lemma StopAndEnd(s: System) returns (actions: seq<Action>)
    requires Sound(s) && s.registered && s.op.Free? && s.looked == multiset{}
    requires s.live.status == Running && s.live.gen == 1 && s.Of(1).running
    ensures Valid(s, actions) && NoFirstStart(actions)
    ensures var r := After(s, actions);
      r.op.Asked? && r.live.status == Running && r.live.gen == 1 && !r.Of(1).running
  {
    var begin := BeginIt(s, StopOp);
    AskAndEnd(s.(op := Entered(StopOp)));
    Follow(s, begin, [Ask] + ([ProcessEnds(1, 0)] + []));
    actions := begin + ([Ask] + ([ProcessEnds(1, 0)] + []));
  }

  lemma AskAndEnd(t: System)
    requires Sound(t) && t.op == Entered(StopOp) && t.live.status == Running && t.live.gen == 1 && t.Of(1).running
    ensures Valid(t, [Ask] + ([ProcessEnds(1, 0)] + []))
    ensures var r := After(t, [Ask] + ([ProcessEnds(1, 0)] + []));
      r.op.Asked? && r.live.status == Running && r.live.gen == 1 && !r.Of(1).running
  {
    var asked := Next(t, Ask);
    Prepend(asked, ProcessEnds(1, 0), []);
    Prepend(t, Ask, [ProcessEnds(1, 0)] + []);
  }

  /**
   A delete has found nothing running and is done when the first start comes: no process is lost track of, and none of
   the operations can reach the one that was started.
   */
  lemma RaceWithDelete()
    ensures exists s: System ::
              Reached(s) && !s.registered && s.op.Free? && s.looked == multiset{} && MissedByDelete(s)
  {
    var n := NewEntry(true);
    var begin := BeginIt(n, DeleteOp);
    var rest := DeleteIdle(n.(op := Entered(DeleteOp)));
    Follow(n, begin, rest);
    var before := begin + rest;
    var s := After(n, before);
    RunBefore(n, before);
    AnyStrands(s, 2, true, 0);
    AnyFirstStart(s, Up(2, true), 0);
    ReachedBy(before);
  }

  ghost predicate MissedByDelete(s: System) {
    && Sound(s) && s.registering && MayFirstStart(s, Up(2, true))
    && NeverLoses(Next(s, RegisterStart(Up(2, true), 0))) && StrandsIts(s, 2, true, 0)
  }

  lemma ReachedBy(before: seq<Action>)
    requires Valid(NewEntry(true), before) && NoFirstStart(before)
    ensures Reached(After(NewEntry(true), before))
  {
  }

  lemma DeleteIdle(s: System) returns (actions: seq<Action>)
    requires Sound(s) && s.op == Entered(DeleteOp) && s.live.status != Running
    ensures Valid(s, actions) && NoFirstStart(actions)
    ensures After(s, actions) == s.(op := Free, registered := false)
  {
    var ready := Next(s, Ask);
    var gone := Next(ready, Deregister);
    Prepend(gone, Leave, []);
    Prepend(ready, Deregister, [Leave] + []);
    Prepend(s, Ask, [Deregister] + ([Leave] + []));
    actions := [Ask] + ([Deregister] + ([Leave] + []));
  }
}
