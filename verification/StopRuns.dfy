/**
 What one operation does from its first step to its last, over the runs it is part of: how long a stop waits before it
 gives a process up, and what a start leaves in the entry.
 */
module StopRuns {
  import opened Basics
  import opened Entry
  import opened Protocol
  import opened ProtocolSafety
  import opened ProtocolRuns

  lemma {:induction false} Divide(s: System, a: seq<Action>, b: seq<Action>)
    requires Sound(s) && Valid(s, a + b)
    ensures Valid(s, a) && Valid(After(s, a), b) && After(s, a + b) == After(After(s, a), b)
    decreases |a|
  {
    if a == [] {
      assert a + b == b;
    } else {
      assert (a + b)[1..] == a[1..] + b && (a + b)[0] == a[0];
      Divide(Next(s, a[0]), a[1..], b);
    }
  }

  lemma Last(s: System, actions: seq<Action>)
    requires Sound(s) && Valid(s, actions) && actions != []
    ensures var done, a := actions[..|actions| - 1], actions[|actions| - 1];
      Valid(s, done) && Enabled(After(s, done), a) && After(s, actions) == Next(After(s, done), a)
  {
    var done, a := actions[..|actions| - 1], actions[|actions| - 1];
    assert actions == done + [a];
    Divide(s, done, [a]);
    assert [a][1..] == [];
  }

  // Giving a process up.

  /** At step i a stop found the given run under way. */
  ghost predicate BeganAt(s: System, actions: seq<Action>, i: nat, gen: nat)
    requires Sound(s)
  {
    && i < |actions| && actions[i] == Ask && Valid(s, actions[..i])
    && Current(After(s, actions[..i]).live, gen)
  }

  /** No stop begins or ends between two steps. */
  predicate SameStop(actions: seq<Action>, i: nat, end: nat) {
    forall n :: i < n < end && n < |actions| ==> actions[n] != Ask && !actions[n].Finish?
  }

  /** How far the stop under way has come: it has begun, has waited in vain once, has done so again. */
  ghost predicate UnderWay(s: System, actions: seq<Action>, gen: nat, i: nat)
    requires Sound(s)
  {
    BeganAt(s, actions, i, gen) && SameStop(actions, i, |actions|)
  }

  ghost predicate WaitedOnce(s: System, actions: seq<Action>, gen: nat, i: nat, j: nat)
    requires Sound(s)
  {
    UnderWay(s, actions, gen, i) && i < j < |actions| && actions[j] == Wait(false)
  }

  ghost predicate WaitedTwice(s: System, actions: seq<Action>, gen: nat, i: nat, j: nat, k: nat)
    requires Sound(s)
  {
    WaitedOnce(s, actions, gen, i, j) && j < k < |actions| && actions[k] == WaitAgain(false)
  }

  /** A whole stop that waited twice in vain, from its first step i to its last step m. */
  ghost predicate GaveUpAt(s: System, actions: seq<Action>, gen: nat, i: nat, j: nat, k: nat, m: nat)
    requires Sound(s)
  {
    && i < j < k < m < |actions| && BeganAt(s, actions, i, gen) && SameStop(actions, i, m)
    && actions[j] == Wait(false) && actions[k] == WaitAgain(false) && actions[m].Finish?
  }

  ghost predicate OnceBegun(s: System, actions: seq<Action>, gen: nat)
    requires Sound(s)
  {
    exists i: nat :: UnderWay(s, actions, gen, i)
  }

  ghost predicate OnceForced(s: System, actions: seq<Action>, gen: nat)
    requires Sound(s)
  {
    exists i: nat, j: nat :: WaitedOnce(s, actions, gen, i, j)
  }

  ghost predicate TwiceInVain(s: System, actions: seq<Action>, gen: nat)
    requires Sound(s)
  {
    exists i: nat, j: nat, k: nat :: WaitedTwice(s, actions, gen, i, j, k)
  }

  ghost predicate GaveUp(s: System, actions: seq<Action>, gen: nat)
    requires Sound(s)
  {
    exists i: nat, j: nat, k: nat, m: nat :: GaveUpAt(s, actions, gen, i, j, k, m)
  }

  /** What the state says about the steps that led to it. */
  ghost predicate Tells(s: System, actions: seq<Action>)
    requires Sound(s) && Valid(s, actions)
  {
    var r := After(s, actions);
    && (r.op.Asked? ==> OnceBegun(s, actions, r.op.gen))
    && (r.op.Forced? ==> OnceForced(s, actions, r.op.gen))
    && ((r.op.Closing? || r.op.Finishing?) && !r.op.waited ==> TwiceInVain(s, actions, r.op.gen))
    && forall g :: 1 <= g <= |r.procs| && r.Of(g).reported ==> GaveUp(s, actions, g)
  }

  lemma BeganStays(s: System, actions: seq<Action>, a: Action, i: nat, gen: nat)
    requires Sound(s) && BeganAt(s, actions, i, gen)
    ensures BeganAt(s, actions + [a], i, gen)
  {
    assert (actions + [a])[..i] == actions[..i];
  }

  lemma GaveUpStays(s: System, actions: seq<Action>, a: Action, gen: nat)
    requires Sound(s) && GaveUp(s, actions, gen)
    ensures GaveUp(s, actions + [a], gen)
  {
    var i: nat, j: nat, k: nat, m: nat :| GaveUpAt(s, actions, gen, i, j, k, m);
    BeganStays(s, actions, a, i, gen);
    assert GaveUpAt(s, actions + [a], gen, i, j, k, m);
  }

  /** The step is not one at which a stop begins or ends. */
  predicate Midway(a: Action) { a != Ask && !a.Finish? }

  lemma BegunStays(s: System, actions: seq<Action>, a: Action, gen: nat, i: nat)
    requires Sound(s) && Midway(a) && UnderWay(s, actions, gen, i)
    ensures UnderWay(s, actions + [a], gen, i)
    ensures a == Wait(false) ==> WaitedOnce(s, actions + [a], gen, i, |actions|)
  {
    BeganStays(s, actions, a, i, gen);
  }

  lemma OnceBegunStays(s: System, actions: seq<Action>, a: Action, gen: nat)
    requires Sound(s) && Midway(a) && OnceBegun(s, actions, gen)
    ensures OnceBegun(s, actions + [a], gen)
    ensures a == Wait(false) ==> OnceForced(s, actions + [a], gen)
  {
    var i: nat :| UnderWay(s, actions, gen, i);
    BegunStays(s, actions, a, gen, i);
  }

  lemma OnceForcedStays(s: System, actions: seq<Action>, a: Action, gen: nat)
    requires Sound(s) && Midway(a) && OnceForced(s, actions, gen)
    ensures OnceForced(s, actions + [a], gen)
    ensures a == WaitAgain(false) ==> TwiceInVain(s, actions + [a], gen)
  {
    var i: nat, j: nat :| WaitedOnce(s, actions, gen, i, j);
    BegunStays(s, actions, a, gen, i);
    assert WaitedOnce(s, actions + [a], gen, i, j);
    assert a == WaitAgain(false) ==> WaitedTwice(s, actions + [a], gen, i, j, |actions|);
  }

  lemma TwiceStays(s: System, actions: seq<Action>, a: Action, gen: nat)
    requires Sound(s) && TwiceInVain(s, actions, gen)
    ensures Midway(a) ==> TwiceInVain(s, actions + [a], gen)
    ensures a.Finish? ==> GaveUp(s, actions + [a], gen)
  {
    var i: nat, j: nat, k: nat :| WaitedTwice(s, actions, gen, i, j, k);
    BeganStays(s, actions, a, i, gen);
    if Midway(a) {
      BegunStays(s, actions, a, gen, i);
      assert WaitedTwice(s, actions + [a], gen, i, j, k);
    } else if a.Finish? {
      assert GaveUpAt(s, actions + [a], gen, i, j, k, |actions|);
    }
  }

  lemma AskBegins(s: System, actions: seq<Action>)
    requires Sound(s) && Valid(s, actions) && After(s, actions).live.status == Running
    ensures OnceBegun(s, actions + [Ask], After(s, actions).live.gen)
  {
    var more, i := actions + [Ask], |actions|;
    assert more[..i] == actions && more[i] == Ask;
    assert UnderWay(s, more, After(s, actions).live.gen, i);
  }

  /** Which operation states a step leads to, and from where. */
  lemma StepTells(m: System, a: Action)
    requires Sound(m) && Enabled(m, a)
    ensures var r := Next(m, a);
      && (r.op.Asked? ==>
            (a == Ask && m.live.status == Running && r.op.gen == m.live.gen) || (Midway(a) && r.op == m.op))
      && (r.op.Forced? ==> Midway(a) && r.op.gen == m.op.gen && ((a == Wait(false) && m.op.Asked?) || r.op == m.op))
      && ((r.op.Closing? || r.op.Finishing?) && !r.op.waited ==>
            Midway(a) && r.op.gen == m.op.gen &&
            ((a == WaitAgain(false) && m.op.Forced?) || ((m.op.Closing? || m.op.Finishing?) && !m.op.waited)))
  {
  }

  /** A step reports a run only as the end of a stop that did not see it end. */
  lemma StepReports(m: System, a: Action, gen: nat)
    requires Sound(m) && Enabled(m, a) && 1 <= gen <= |Next(m, a).procs| && Next(m, a).Of(gen).reported
    ensures (gen <= |m.procs| && m.Of(gen).reported)
         || (a.Finish? && m.op.Finishing? && m.op.gen == gen && !m.op.waited)
  {
    if a.Ask? || a.CloseGroup? || a.Start? || a.RegisterStart? {
      OperationReports(m, a, gen);
    } else if a.ProcessEnds? || a.Record? || a.CloseExited? {
      OutsideReports(m, a, gen);
    }
  }

  lemma OperationReports(m: System, a: Action, gen: nat)
    requires Sound(m) && Enabled(m, a) && 1 <= gen <= |Next(m, a).procs| && Next(m, a).Of(gen).reported
    requires a.Ask? || a.CloseGroup? || a.Start? || a.RegisterStart?
    ensures gen <= |m.procs| && m.Of(gen).reported
  {
  }

  lemma OutsideReports(m: System, a: Action, gen: nat)
    requires Sound(m) && Enabled(m, a) && 1 <= gen <= |Next(m, a).procs| && Next(m, a).Of(gen).reported
    requires a.ProcessEnds? || a.Record? || a.CloseExited?
    ensures gen <= |m.procs| && m.Of(gen).reported
  {
  }

  lemma {:induction false} RunTells(registering: bool, actions: seq<Action>)
    requires Valid(NewEntry(registering), actions)
    ensures Tells(NewEntry(registering), actions)
    decreases |actions|
  {
    var s := NewEntry(registering);
    if actions != [] {
      var done, a := actions[..|actions| - 1], actions[|actions| - 1];
      assert actions == done + [a];
      Last(s, actions);
      RunTells(registering, done);
      var m, r := After(s, done), After(s, actions);
      StepTells(m, a);
      if r.op.Asked? {
        if a == Ask { AskBegins(s, done); } else { OnceBegunStays(s, done, a, r.op.gen); }
      } else if r.op.Forced? {
        if m.op.Asked? { OnceBegunStays(s, done, a, r.op.gen); } else { OnceForcedStays(s, done, a, r.op.gen); }
      } else if (r.op.Closing? || r.op.Finishing?) && !r.op.waited {
        if m.op.Forced? { OnceForcedStays(s, done, a, r.op.gen); } else { TwiceStays(s, done, a, r.op.gen); }
      }
      forall g | 1 <= g <= |r.procs| && r.Of(g).reported ensures GaveUp(s, actions, g) {
        StepReports(m, a, g);
        if g <= |m.procs| && m.Of(g).reported { GaveUpStays(s, done, a, g); } else { TwiceStays(s, done, a, g); }
      }
    }
  }

  /**
   A run is reported as not seen to end only by a stop that found it under way, waited for it in vain, forced it, waited
   in vain again, and only then finished.
   */
  lemma ReportedOnlyAfterTwoWaits(registering: bool, actions: seq<Action>, gen: nat)
    requires Valid(NewEntry(registering), actions)
    requires 1 <= gen <= |After(NewEntry(registering), actions).procs|
    requires After(NewEntry(registering), actions).Of(gen).reported
    ensures GaveUp(NewEntry(registering), actions, gen)
  {
    RunTells(registering, actions);
  }

  // Seeing it end.

  /** The end of a process, its watcher's record and the closing of the channel a stop waits on. */
  function EndOf(gen: nat, code: int, at: int): seq<Action> {
    [ProcessEnds(gen, code), Record(gen, at), CloseExited(gen)]
  }

  /** A stop has begun for the run the entry is running, and is waiting for it, the first or the second time. */
  predicate WaitsFor(s: System, gen: nat) {
    && Sound(s) && Current(s.live, gen) && s.live.stopRequested && 1 <= gen <= |s.procs|
    && (s.op.Asked? || s.op.Forced?) && s.op.gen == gen && s.op.exited == Some(gen)
    && !s.Of(gen).reported
  }

  lemma ItEnds(s: System, gen: nat, code: int, at: int)
    requires WaitsFor(s, gen) && s.Of(gen).running && s.Of(gen).watcher == Watching
    ensures Valid(s, EndOf(gen, code, at))
    ensures var r := After(s, EndOf(gen, code, at));
      && WaitsFor(r, gen) && r.op == s.op && r.Of(gen).watcher == Closed && !r.Of(gen).running
      && r.live == s.live.(exitCode := Some(code), endedAt := Some(at))
  {
    var a := Next(s, ProcessEnds(gen, code));
    var b := Next(a, Record(gen, at));
    Prepend(b, CloseExited(gen), []);
    Prepend(a, Record(gen, at), [CloseExited(gen)] + []);
    Prepend(s, ProcessEnds(gen, code), [Record(gen, at)] + ([CloseExited(gen)] + []));
    assert [ProcessEnds(gen, code)] + ([Record(gen, at)] + ([CloseExited(gen)] + [])) == EndOf(gen, code, at);
  }

  /** The steps of a stop from a wait that saw the end to the last. */
  function SeenOut(again: bool, at: int): seq<Action> {
    [if again then WaitAgain(true) else Wait(true), CloseGroup, Finish(at)]
  }

  predicate SeenToEnd(r: System, s: System, gen: nat)
    requires Sound(s) && !s.op.Free? && 1 <= gen <= |s.procs|
  {
    && Sound(r) && gen <= |r.procs| && r.op == Ready(s.op.kind) && !r.Of(gen).reported
    && r.live == s.live.(status := Stopped, job := None)
  }

  lemma WaitSees(s: System, gen: nat)
    requires WaitsFor(s, gen) && s.Of(gen).watcher == Closed && Names(s, s.op.job)
    ensures var wait := if s.op.Forced? then WaitAgain(true) else Wait(true);
      Enabled(s, wait) && Next(s, wait) == s.(op := Closing(s.op.kind, gen, s.op.job, true))
  {
  }

  lemma CloseAndFinish(s: System, gen: nat, at: int)
    requires Sound(s) && s.op.Closing? && s.op.waited && s.op.gen == gen && 1 <= gen <= |s.procs|
    requires !s.Of(gen).reported && s.live.endedAt.Some?
    ensures Valid(s, [CloseGroup] + ([Finish(at)] + []))
    ensures SeenToEnd(After(s, [CloseGroup] + ([Finish(at)] + [])), s, gen)
  {
    var b := Next(s, CloseGroup);
    Prepend(b, Finish(at), []);
    Prepend(s, CloseGroup, [Finish(at)] + []);
  }

  lemma SeenFrom(s: System, gen: nat, at: int)
    requires WaitsFor(s, gen) && s.Of(gen).watcher == Closed && s.live.endedAt.Some?
    requires Names(s, s.op.job)
    ensures Valid(s, SeenOut(s.op.Forced?, at))
    ensures SeenToEnd(After(s, SeenOut(s.op.Forced?, at)), s, gen)
  {
    var wait := if s.op.Forced? then WaitAgain(true) else Wait(true);
    WaitSees(s, gen);
    CloseAndFinish(Next(s, wait), gen, at);
    Prepend(s, wait, [CloseGroup] + ([Finish(at)] + []));
    assert [wait] + ([CloseGroup] + ([Finish(at)] + [])) == SeenOut(s.op.Forced?, at);
  }

  /** The run a stop finds. */
  predicate Stoppable(s: System) {
    && Sound(s) && s.op.Entered? && s.op.kind != RunOp
    && s.live.status == Running && s.Of(s.live.gen).running && s.Of(s.live.gen).watcher == Watching
  }

  /** A stop of a live process, up to where the process ends: during the first wait, or during the second. */
  function UntilEnd(again: bool, gen: nat, code: int, ended: int): seq<Action> {
    (if again then [Ask, Wait(false)] else [Ask]) + EndOf(gen, code, ended)
  }

  /**
   A process that ends while it is waited for, before it is forced or after, is seen to: the stop goes on to its end,
   keeps the exit code and the time the watcher wrote, and does not report the run.
   */
  lemma EndIsSeen(s: System, again: bool, code: int, ended: int, at: int)
    requires Inv(s) && Stoppable(s)
    ensures var actions := UntilEnd(again, s.live.gen, code, ended) + SeenOut(again, at);
      && Valid(s, actions)
      && var r := After(s, actions);
         && r.op == Ready(s.op.kind) && s.live.gen <= |r.procs| && !r.Of(s.live.gen).reported
         && r.live.status == Stopped && r.live.exitCode == Some(code) && r.live.endedAt == Some(ended)
  {
    var gen := s.live.gen;
    assert ProcOk(s.Of(gen), gen, s.live, s.op);
    AskWaits(s, again);
    var w := After(s, if again then [Ask, Wait(false)] else [Ask]);
    ItEnds(w, gen, code, ended);
    var e := After(w, EndOf(gen, code, ended));
    SeenFrom(e, gen, at);
    Follow(s, if again then [Ask, Wait(false)] else [Ask], EndOf(gen, code, ended));
    Follow(s, UntilEnd(again, gen, code, ended), SeenOut(again, at));
  }

  lemma AskWaits(s: System, again: bool)
    requires Inv(s) && Stoppable(s)
    ensures var actions := if again then [Ask, Wait(false)] else [Ask];
      && Valid(s, actions)
      && var r := After(s, actions);
         && WaitsFor(r, s.live.gen) && (if again then r.op.Forced? else r.op.Asked?) && r.op.kind == s.op.kind
         && r.Of(s.live.gen).running && r.Of(s.live.gen).watcher == Watching
  {
    assert ProcOk(s.Of(s.live.gen), s.live.gen, s.live, s.op);
    var a := Next(s, Ask);
    if again {
      Prepend(a, Wait(false), []);
      Prepend(s, Ask, [Wait(false)] + []);
      assert [Ask] + ([Wait(false)] + []) == [Ask, Wait(false)];
    } else {
      Prepend(s, Ask, []);
    }
  }

  // Starting.

  /** A run of an entry that is running leaves it exactly as it is. */
  lemma RunOfRunning(s: System, result: Spawned, at: int)
    requires Sound(s) && Enabled(s, Start(result, at)) && s.op.kind == RunOp && s.live.status == Running
    ensures var r := Next(s, Start(result, at)); r.live == s.live && r.procs == s.procs && r == s.(op := r.op)
  {
  }

  /** Any other start that succeeds shows its process, without a trace of the run before. */
  lemma StartShows(s: System, pid: nat, grouped: bool, at: int)
    requires Sound(s) && Enabled(s, Start(Up(pid, grouped), at)) && (s.op.kind == RestartOp || s.live.status != Running)
    ensures var r := Next(s, Start(Up(pid, grouped), at));
      && r.live.status == Running && r.live.pid == Some(pid) && r.live.startedAt == Some(at)
      && r.live.exitCode.None? && r.live.endedAt.None? && r.live.error == "" && !r.live.stopRequested
      && |r.procs| == |s.procs| + 1 == r.live.gen && r.procs[..|s.procs|] == s.procs
      && r.Of(r.live.gen).running && r.Of(r.live.gen).pid == pid
  {
  }

  /** What a start that failed leaves: its reason and time, and no process. */
  predicate ShowsFailure(live: Live, reason: string, at: int) {
    live.status == Failed && live.error == reason && live.endedAt == Some(at) && live.pid.None? && live.startedAt.None?
  }

  lemma StartFails(s: System, reason: string, at: int)
    requires Sound(s) && Enabled(s, Start(Down(reason), at)) && (s.op.kind == RestartOp || s.live.status != Running)
    ensures var r := Next(s, Start(Down(reason), at)); ShowsFailure(r.live, reason, at) && r.procs == s.procs
  {
  }

  /** The reason stays until something is started again, whatever else happens. */
  lemma {:induction false} ReasonStays(s: System, actions: seq<Action>)
    requires Inv(s) && Valid(s, actions) && InOrderRun(s, actions) && s.live.status == Failed
    requires forall i :: 0 <= i < |actions| ==> StartsNothing(actions[i])
    ensures var r := After(s, actions);
      r.live.status == Failed && r.live.error == s.live.error && r.live.pid.None? && r.live.startedAt.None?
    decreases |actions|
  {
    if actions != [] {
      FailedStays(s, actions[0]);
      StepKeepsInv(s, actions[0]);
      FailureUntouched(s, actions[0]);
      ReasonStays(Next(s, actions[0]), actions[1..]);
    }
  }

  lemma FailureUntouched(s: System, a: Action)
    requires Inv(s) && Enabled(s, a) && StartsNothing(a) && s.live.status == Failed
    ensures var r := Next(s, a).live;
      r.error == s.live.error && r.pid == s.live.pid && r.startedAt == s.live.startedAt
  {
  }
}
