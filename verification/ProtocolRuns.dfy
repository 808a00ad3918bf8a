/** Whole runs of one entry: what holds in every state they reach, and the two runs that escape the guarantees. */
module ProtocolRuns {
  import opened Basics
  import opened Entry
  import opened Protocol
  import opened ProtocolSafety

  /** Each action in turn is one the state before it allows. */
  predicate Valid(s: System, actions: seq<Action>)
    requires Sound(s)
    decreases |actions|
  {
    actions == [] || (Enabled(s, actions[0]) && Valid(Next(s, actions[0]), actions[1..]))
  }

  function After(s: System, actions: seq<Action>): (r: System)
    requires Sound(s) && Valid(s, actions)
    ensures Sound(r)
    decreases |actions|
  {
    if actions == [] then s else After(Next(s, actions[0]), actions[1..])
  }

  /** An entry that was never started: restored, registered without a start, or about to have its first start. */
  function NewEntry(registering: bool): (s: System)
    ensures Sound(s)
  {
    var live := Live(Stopped, "", None, None, None, None, false, None, None, None, 0);
    System(live, Free, [], multiset{}, true, registering)
  }

  /** No operation begins before the first start of a new registration is over. */
  predicate InOrderRun(s: System, actions: seq<Action>)
    requires Sound(s) && Valid(s, actions)
    decreases |actions|
  {
    actions == [] || (InOrder(s, actions[0]) && InOrderRun(Next(s, actions[0]), actions[1..]))
  }

  lemma {:induction false} RunKeepsInv(s: System, actions: seq<Action>)
    requires Inv(s) && Valid(s, actions) && InOrderRun(s, actions)
    ensures Inv(After(s, actions))
    decreases |actions|
  {
    if actions != [] {
      StepKeepsInv(s, actions[0]);
      RunKeepsInv(Next(s, actions[0]), actions[1..]);
    }
  }

  /** Every process ever started is the one the entry is running, has ended, or was reported as not seen to end. */
  ghost predicate NoneLost(s: System)
    requires Sound(s)
  {
    forall g :: 1 <= g <= |s.procs| && s.Of(g).running ==> Current(s.live, g) || s.Of(g).reported
  }

  /** Each run ended once, as stopped exactly when a stop had begun before it was recorded, else by its exit code. */
  ghost predicate DecidedOnce(s: System)
    requires Sound(s)
  {
    forall g :: 1 <= g <= |s.procs| && !Current(s.live, g) ==>
      var p := s.Of(g);
      |p.ends| == 1 && p.records <= 1 && p.exitedCloses <= 1 && p.groupCloses == (if p.grouped then 1 else 0) &&
      p.ends[0] == if p.asked then Stopped else StatusOf(p.code)
  }

  /** Between operations, if no stop of the last run gave up, the fields tell one story about it. */
  predicate Coherent(s: System)
    requires Sound(s)
  {
    var live := s.live;
    && (live.status != Failed ==> live.error == "")
    && (live.status != Failed && live.gen > 0 ==> live.pid == Some(s.Of(live.gen).pid))
    && OneStory(s)
  }

  predicate OneStory(s: System)
    requires Sound(s)
  {
    var live := s.live;
    s.op.Free? && (live.gen > 0 ==> !s.Of(live.gen).reported) ==>
      match live.status
      case Running =>
        && live.pid.Some? && live.startedAt.Some?
        && live.exitCode.None? && live.endedAt.None? && !live.stopRequested
      case Failed =>
        && live.pid.None? && live.startedAt.None?
        && live.exitCode.None? && live.endedAt.Some? && live.job.None?
      case Exited =>
        && live.pid.Some? && live.startedAt.Some?
        && live.exitCode == Some(0) && live.endedAt.Some? && live.job.None?
      case Killed =>
        && live.pid.Some? && live.startedAt.Some?
        && live.exitCode.Some? && live.exitCode != Some(0) && live.endedAt.Some? && live.job.None?
      case Stopped =>
        && live.job.None?
        && (live.exitCode.Some? <==> live.gen > 0) && (live.endedAt.Some? <==> live.gen > 0)
  }

  lemma InvMeans(s: System)
    requires Inv(s)
    ensures NoneLost(s) && DecidedOnce(s) && Coherent(s)
  {
    forall g | 1 <= g <= |s.procs| && s.Of(g).running ensures Current(s.live, g) || s.Of(g).reported {
      assert ProcOk(s.Of(g), g, s.live, s.op);
    }
    forall g | 1 <= g <= |s.procs| && !Current(s.live, g)
      ensures var p := s.Of(g);
        |p.ends| == 1 && p.records <= 1 && p.exitedCloses <= 1 && p.groupCloses == (if p.grouped then 1 else 0) &&
        p.ends[0] == if p.asked then Stopped else StatusOf(p.code)
    {
      assert ProcOk(s.Of(g), g, s.live, s.op);
    }
    if s.live.gen > 0 { assert ProcOk(s.Of(s.live.gen), s.live.gen, s.live, s.op); }
  }

  /** Every interleaving from a new entry loses no process, decides each run once and leaves coherent fields. */
  lemma EveryRunIsSafe(registering: bool, actions: seq<Action>)
    requires Valid(NewEntry(registering), actions) && InOrderRun(NewEntry(registering), actions)
    ensures var s := After(NewEntry(registering), actions);
      NoneLost(s) && DecidedOnce(s) && Coherent(s)
      && (s.live.status != Running ==> forall g :: 1 <= g <= |s.procs| && s.Of(g).running ==> s.Of(g).reported)
  {
    RunKeepsInv(NewEntry(registering), actions);
    InvMeans(After(NewEntry(registering), actions));
  }

  /** A stop marks a run only while its watcher has recorded nothing, and it ends with the entry not running. */
  lemma StopsAreSound(s: System)
    requires Inv(s)
    ensures Enabled(s, Ask) && s.live.status == Running ==>
              (s.Of(s.live.gen).watcher == Watching && !s.Of(s.live.gen).asked)
    ensures s.op.Ready? || (s.op.Leaving? && (s.op.kind == StopOp || s.op.kind == DeleteOp)) ==>
              s.live.status != Running
    ensures s.op.Finishing? && s.op.waited ==> !s.Of(s.op.gen).running && s.live.exitCode == Some(s.Of(s.op.gen).code)
    ensures s.op.Finishing? ==> forall at ::
      var live := Next(s, Finish(at)).live;
      live.exitCode == (if s.op.waited then s.live.exitCode else None) &&
      live.endedAt == if s.Of(s.op.gen).watcher == Watching then Some(at) else s.live.endedAt
  {
    if s.live.gen > 0 { assert ProcOk(s.Of(s.live.gen), s.live.gen, s.live, s.op); }
  }

  // Putting runs together.

  lemma Prepend(s: System, a: Action, rest: seq<Action>)
    requires Sound(s) && Enabled(s, a) && Valid(Next(s, a), rest)
    ensures Valid(s, [a] + rest) && After(s, [a] + rest) == After(Next(s, a), rest)
  {
    assert ([a] + rest)[1..] == rest;
  }

  lemma {:induction false} Follow(s: System, a: seq<Action>, b: seq<Action>)
    requires Sound(s) && Valid(s, a) && Valid(After(s, a), b)
    ensures Valid(s, a + b) && After(s, a + b) == After(After(s, a), b)
    decreases |a|
  {
    if a == [] {
      assert a + b == b;
    } else {
      assert (a + b)[1..] == a[1..] + b;
      Follow(Next(s, a[0]), a[1..], b);
    }
  }

  /** An operation that nothing else is ahead of finds the entry and takes its lock. */
  lemma BeginIt(s: System, kind: Kind) returns (actions: seq<Action>)
    requires Sound(s) && s.registered && s.op.Free? && s.looked == multiset{}
    ensures Valid(s, actions) && After(s, actions) == s.(op := Entered(kind))
    ensures NoFirstStart(actions)
  {
    var found := Next(s, Lookup(kind));
    var inside := Next(found, Enter(kind));
    assert found.looked - multiset{kind} == multiset{};
    actions := [Lookup(kind)] + ([Enter(kind)] + []);
    Prepend(found, Enter(kind), []);
    Prepend(s, Lookup(kind), [Enter(kind)] + []);
  }

  predicate NoFirstStart(actions: seq<Action>) { forall a :: a in actions ==> !a.RegisterStart? }

  /** A run of an entry that is down. */
  lemma RunIt(s: System, result: Spawned) returns (actions: seq<Action>)
    requires Sound(s) && s.registered && s.op.Free? && s.looked == multiset{} && s.live.status != Running
    ensures Valid(s, actions) && After(s, actions) == Spawn(s, result, 0)
    ensures NoFirstStart(actions)
  {
    var begin := BeginIt(s, RunOp);
    var inside := After(s, begin);
    var rest := StartAndLeave(inside, result);
    Follow(s, begin, rest);
    assert Spawn(inside, result, 0).(op := Free) == Spawn(s, result, 0);
    actions := begin + rest;
  }

  lemma StartAndLeave(s: System, result: Spawned) returns (actions: seq<Action>)
    requires Sound(s) && s.op == Entered(RunOp) && s.live.status != Running
    ensures Valid(s, actions) && After(s, actions) == Spawn(s, result, 0).(op := Free)
    ensures NoFirstStart(actions)
  {
    var started := Next(s, Start(result, 0));
    actions := [Start(result, 0)] + ([Leave] + []);
    Prepend(started, Leave, []);
    Prepend(s, Start(result, 0), [Leave] + []);
  }

  /** How far a stop still has to go. */
  function StepsLeft(op: Op): nat
    requires Stopping(op)
  {
    match op
    case Asked(_, _, _, _) => 4
    case Forced(_, _, _, _) => 3
    case Closing(_, _, _, _) => 2
    case _ => 1
  }

  /** Apart from the operation itself and the stopped run's account, everything is as it was. */
  ghost predicate Aside(s: System, r: System, gen: nat)
    requires Sound(s) && Sound(r)
  {
    && r.looked == s.looked && r.registered == s.registered && r.registering == s.registering
    && r.live.gen == s.live.gen && r.live.stopRequested == s.live.stopRequested
    && forall g :: 1 <= g <= |s.procs| ==>
         SameProcess(s.Of(g), r.Of(g)) && (g != gen ==> r.Of(g).reported == s.Of(g).reported)
  }

  predicate SameProcess(p: Proc, q: Proc) { q.running == p.running && q.watcher == p.watcher && q.code == p.code }

  /** The next step of a stop that waits no longer than it must. */
  function Hurry(op: Op): Action
    requires Stopping(op)
  {
    match op
    case Asked(_, _, _, _) => Wait(false)
    case Forced(_, _, _, _) => WaitAgain(false)
    case Closing(_, _, _, _) => CloseGroup
    case _ => Finish(0)
  }

  lemma HurryOn(s: System)
    requires Sound(s) && Stopping(s.op)
    ensures Enabled(s, Hurry(s.op))
    ensures var r := Next(s, Hurry(s.op));
      && Aside(s, r, s.op.gen)
      && if s.op.Finishing? then r.op == Ready(s.op.kind) && r.live.status == Stopped
         else Stopping(r.op) && StepsLeft(r.op) < StepsLeft(s.op) && r.op.kind == s.op.kind && r.op.gen == s.op.gen
  {
    var r := Next(s, Hurry(s.op));
    forall g | 1 <= g <= |s.procs|
      ensures SameProcess(s.Of(g), r.Of(g)) && (g != s.op.gen ==> r.Of(g).reported == s.Of(g).reported)
    {
    }
  }

  lemma AsideTwice(s: System, t: System, r: System, gen: nat)
    requires Sound(s) && Sound(t) && Sound(r) && Aside(s, t, gen) && Aside(t, r, gen)
    ensures Aside(s, r, gen)
  {
    forall g | 1 <= g <= |s.procs|
      ensures SameProcess(s.Of(g), r.Of(g)) && (g != gen ==> r.Of(g).reported == s.Of(g).reported)
    {
      assert SameProcess(s.Of(g), t.Of(g)) && SameProcess(t.Of(g), r.Of(g));
    }
  }

  /** A stop that waits no longer than it must comes to its end, whatever its process does. */
  lemma {:induction false} GiveUp(s: System) returns (actions: seq<Action>)
    requires Sound(s) && Stopping(s.op)
    ensures Valid(s, actions) && NoFirstStart(actions)
    ensures var r := After(s, actions);
      r.op == Ready(s.op.kind) && r.live.status == Stopped && Aside(s, r, s.op.gen)
    decreases StepsLeft(s.op)
  {
    HurryOn(s);
    var a, t := Hurry(s.op), Next(s, Hurry(s.op));
    if s.op.Finishing? {
      Prepend(s, a, []);
      actions := [a] + [];
    } else {
      var rest := GiveUp(t);
      Prepend(s, a, rest);
      AsideTwice(s, t, After(t, rest), s.op.gen);
      actions := [a] + rest;
    }
  }

  /** A stop of a running entry that waits for nothing. */
  lemma StopInVain(s: System) returns (actions: seq<Action>)
    requires Sound(s) && s.registered && s.op.Free? && s.looked == multiset{} && s.live.status == Running
    ensures Valid(s, actions) && NoFirstStart(actions)
    ensures var r := After(s, actions);
      r.op.Free? && r.live.status == Stopped && Aside(s.(live := StopAsked(s.live)), r, s.live.gen)
  {
    var begin := BeginIt(s, StopOp);
    var rest := AskAndGiveUp(s.(op := Entered(StopOp)));
    Follow(s, begin, rest);
    actions := begin + rest;
  }

  lemma AskAndGiveUp(s: System) returns (actions: seq<Action>)
    requires Sound(s) && s.op == Entered(StopOp) && s.live.status == Running
    ensures Valid(s, actions) && NoFirstStart(actions)
    ensures var r := After(s, actions);
      r.op.Free? && r.live.status == Stopped && Aside(s.(live := StopAsked(s.live)), r, s.live.gen)
  {
    var asked := AskStep(s);
    assert Aside(s.(live := StopAsked(s.live)), asked, s.live.gen);
    var wait := GiveUp(asked);
    AsideTwice(s.(live := StopAsked(s.live)), asked, After(asked, wait), s.live.gen);
    var rest := LeaveReady(After(asked, wait));
    Follow(asked, wait, rest);
    Prepend(s, Ask, wait + rest);
    actions := [Ask] + (wait + rest);
  }

  lemma LeaveReady(s: System) returns (actions: seq<Action>)
    requires Sound(s) && s.op == Ready(StopOp)
    ensures Valid(s, actions) && After(s, actions) == s.(op := Free) && NoFirstStart(actions)
  {
    Prepend(s, Leave, []);
    actions := [Leave] + [];
  }

  // Late watchers.

  /** A watcher whose generation is over changes no field of the entry. */
  lemma StaleWatcher(s: System, gen: nat, at: int)
    requires Sound(s) && Enabled(s, Record(gen, at)) && gen != s.live.gen
    ensures Next(s, Record(gen, at)).live == s.live
    ensures forall g :: 1 <= g <= |s.procs| ==>
      var p := Next(s, Record(gen, at)).Of(g);
      p == if g == gen then s.Of(g).(watcher := Recorded) else s.Of(g)
  {
  }

  /** What was decided for a run: everything but whether its process and its watcher are still going on. */
  function Account(p: Proc): (nat, bool, bool, bool, seq<Status>, nat, nat) {
    (p.pid, p.grouped, p.asked, p.reported, p.ends, p.records, p.groupCloses)
  }

  lemma StepKeepsOldAccounts(s: System, a: Action, g: nat)
    requires Inv(s) && Enabled(s, a) && 1 <= g < s.live.gen
    ensures g < Next(s, a).live.gen && Account(Next(s, a).Of(g)) == Account(s.Of(g))
  {
    assert ProcOk(s.Of(g), g, s.live, s.op);
    match a
    case Record(gen, at) => RecordKeepsOldAccounts(s, gen, at, g);
    case Ask | CloseGroup | Finish(_) => StopKeepsOldAccounts(s, a, g);
    case _ =>
  }

  lemma StopKeepsOldAccounts(s: System, a: Action, g: nat)
    requires Inv(s) && Enabled(s, a) && 1 <= g < s.live.gen && (a.Ask? || a.CloseGroup? || a.Finish?)
    ensures g < Next(s, a).live.gen && Account(Next(s, a).Of(g)) == Account(s.Of(g))
  {
  }

  lemma RecordKeepsOldAccounts(s: System, gen: nat, at: int, g: nat)
    requires Inv(s) && Enabled(s, Record(gen, at)) && 1 <= g < s.live.gen
    ensures g < RecordStep(s, gen, at).live.gen && Account(RecordStep(s, gen, at).Of(g)) == Account(s.Of(g))
  {
  }

  /**
   Once an entry has been started again, nothing that still happens to an older run changes what was decided for it.
   */
  lemma {:induction false} OldRunsAreFinal(s: System, actions: seq<Action>, g: nat)
    requires Inv(s) && Valid(s, actions) && InOrderRun(s, actions) && 1 <= g < s.live.gen
    ensures g < After(s, actions).live.gen && Account(After(s, actions).Of(g)) == Account(s.Of(g))
    decreases |actions|
  {
    if actions != [] {
      StepKeepsInv(s, actions[0]);
      StepKeepsOldAccounts(s, actions[0], g);
      OldRunsAreFinal(Next(s, actions[0]), actions[1..], g);
    }
  }

  predicate OfOlder(a: Action, gen: nat) {
    (a.ProcessEnds? || a.Record? || a.CloseExited?) && a.gen != gen
  }

  lemma LateStep(s: System, a: Action)
    requires Sound(s) && Enabled(s, a) && OfOlder(a, s.live.gen)
    ensures var r := Next(s, a);
      r == s.(procs := r.procs) && |r.procs| == |s.procs| && (s.live.gen > 0 ==> r.Of(s.live.gen) == s.Of(s.live.gen))
  {
    if a.Record? { StaleWatcher(s, a.gen, a.at); }
  }

  /** Any number of late steps of older runs leaves the entry and its current run exactly as they are. */
  lemma {:induction false} LateStepsLeaveNoTrace(s: System, actions: seq<Action>)
    requires Sound(s) && Valid(s, actions) && forall i :: 0 <= i < |actions| ==> OfOlder(actions[i], s.live.gen)
    ensures var r := After(s, actions);
      r == s.(procs := r.procs) && |r.procs| == |s.procs| && (s.live.gen > 0 ==> r.Of(s.live.gen) == s.Of(s.live.gen))
    decreases |actions|
  {
    if actions != [] {
      LateStep(s, actions[0]);
      LateStepsLeaveNoTrace(Next(s, actions[0]), actions[1..]);
    }
  }

  /** A failed start gets an exit code only from the watcher of the run before it, whose stop had given up waiting. */
  lemma LateExitCodeIff(s: System, a: Action)
    requires Inv(s) && Enabled(s, a) && InOrder(s, a) && s.live.status == Failed && s.live.exitCode.None?
    ensures Next(s, a).live.status == Failed && Next(s, a).live.exitCode.Some? <==> a.Record? && a.gen == s.live.gen
    ensures a.Record? && a.gen == s.live.gen ==>
              (s.Of(a.gen).reported && Next(s, a).live.exitCode == Some(s.Of(a.gen).code))
  {
  }

  /** No start, first or other. */
  predicate StartsNothing(a: Action) { !a.Start? && !a.RegisterStart? }

  lemma FailedStays(s: System, a: Action)
    requires Inv(s) && Enabled(s, a) && StartsNothing(a) && s.live.status == Failed
    ensures var r := Next(s, a).live;
      r.status == Failed && r.gen == s.live.gen &&
      r.exitCode == if a.Record? && a.gen == s.live.gen then Some(s.Of(a.gen).code) else s.live.exitCode
  {
  }

  /** Over a whole run that starts nothing, a failed start gets an exit code exactly if that watcher records in it. */
  lemma {:induction false} LateExitCodeOverRun(s: System, actions: seq<Action>)
    requires Inv(s) && Valid(s, actions) && InOrderRun(s, actions) && s.live.status == Failed && s.live.exitCode.None?
    requires forall i :: 0 <= i < |actions| ==> StartsNothing(actions[i])
    ensures After(s, actions).live.status == Failed
    ensures After(s, actions).live.exitCode.Some? <==> RecordedIn(actions, s.live.gen)
    ensures After(s, actions).live.exitCode.Some? ==> s.live.gen > 0 && s.Of(s.live.gen).reported
    decreases |actions|
  {
    if actions != [] {
      var a, rest := actions[0], actions[1..];
      var t := Next(s, a);
      FailedStays(s, a);
      StepKeepsInv(s, a);
      RecordedFirst(actions, s.live.gen);
      if t.live.exitCode.None? {
        LateExitCodeOverRun(t, rest);
        if After(t, rest).live.exitCode.Some? { StepKeepsReported(s, a); }
      } else {
        LateCodeStays(t, rest);
      }
    }
  }

  /** And it does happen: a stop gives up, the next start fails, and then the process ends. */
  lemma LateExitCode(code: int)
    ensures exists actions: seq<Action> ::
              Valid(NewEntry(false), actions) && GotLateCode(After(NewEntry(false), actions), code)
  {
    var s := NewEntry(false);
    var a := RunIt(s, Up(1, false));
    var t := Spawn(s, Up(1, false), 0);
    var b := StopInVain(t);
    var u := After(t, b);
    GivenUp(t, u);
    var c := RunIt(u, Down("no such directory"));
    var d := [ProcessEnds(1, code), Record(1, 0)];
    EndAndRecord(Spawn(u, Down("no such directory"), 0), code);
    FollowTwice(t, b, u, c, d);
    Follow(s, a, b + (c + d));
  }

  lemma FollowTwice(s: System, a: seq<Action>, t: System, b: seq<Action>, c: seq<Action>)
    requires Sound(s) && Valid(s, a) && After(s, a) == t && Valid(t, b) && Valid(After(t, b), c)
    ensures Valid(s, a + (b + c)) && After(s, a + (b + c)) == After(After(t, b), c)
  {
    Follow(t, b, c);
    Follow(s, a, b + c);
  }

  lemma GivenUp(t: System, u: System)
    requires Sound(t) && Sound(u) && t.live.status == Running
    requires t.live.gen == 1 && t.Of(1).running && t.Of(1).watcher == Watching
    requires Aside(t.(live := StopAsked(t.live)), u, 1)
    ensures u.live.gen == 1 && u.Of(1).running && u.Of(1).watcher == Watching && u.live.stopRequested
  {
    assert SameProcess(t.(live := StopAsked(t.live)).Of(1), u.Of(1));
  }

  predicate RecordedIn(actions: seq<Action>, gen: nat) {
    exists i :: 0 <= i < |actions| && actions[i].Record? && actions[i].gen == gen
  }

  lemma RecordedFirst(actions: seq<Action>, gen: nat)
    requires actions != []
    ensures RecordedIn(actions, gen) <==> (actions[0].Record? && actions[0].gen == gen) || RecordedIn(actions[1..], gen)
  {
    if RecordedIn(actions, gen) {
      var i :| 0 <= i < |actions| && actions[i].Record? && actions[i].gen == gen;
      assert i > 0 ==> actions[1..][i - 1] == actions[i];
    }
    if RecordedIn(actions[1..], gen) {
      var i :| 0 <= i < |actions[1..]| && actions[1..][i].Record? && actions[1..][i].gen == gen;
      assert actions[i + 1] == actions[1..][i];
    }
  }

  /** Only the end of a stop reports a run, and an entry that is down has no stop under way. */
  lemma StepKeepsReported(s: System, a: Action)
    requires Inv(s) && Enabled(s, a) && StartsNothing(a) && s.live.status != Running && s.live.gen > 0
    ensures s.live.gen <= |Next(s, a).procs| && Next(s, a).Of(s.live.gen).reported == s.Of(s.live.gen).reported
  {
  }

  lemma {:induction false} LateCodeStays(s: System, actions: seq<Action>)
    requires Inv(s) && Valid(s, actions) && InOrderRun(s, actions) && s.live.status == Failed && s.live.exitCode.Some?
    requires forall i :: 0 <= i < |actions| ==> StartsNothing(actions[i])
    ensures After(s, actions).live.status == Failed && After(s, actions).live.exitCode.Some?
    decreases |actions|
  {
    if actions != [] {
      FailedStays(s, actions[0]);
      StepKeepsInv(s, actions[0]);
      LateCodeStays(Next(s, actions[0]), actions[1..]);
    }
  }

  /** Its watcher has recorded nothing yet. */
  predicate StillWatched(s: System)
    requires Sound(s)
  {
    s.live.gen > 0 && s.Of(s.live.gen).watcher == Watching
  }

  ghost predicate CanGetLateCode(s: System)
    requires Sound(s)
  {
    exists actions: seq<Action> ::
      && Valid(s, actions) && InOrderRun(s, actions)
      && (forall i :: 0 <= i < |actions| ==> StartsNothing(actions[i]))
      && After(s, actions).live.exitCode.Some?
  }

  /** Whether a failed start can still get one shows beforehand: exactly if the last run's watcher is not done. */
  lemma LateExitCodePossibleIff(s: System)
    requires Inv(s) && s.live.status == Failed && s.live.exitCode.None?
    ensures CanGetLateCode(s) <==> StillWatched(s)
  {
    if StillWatched(s) {
      LateCodeComes(s);
    } else {
      forall actions: seq<Action> | Valid(s, actions) && InOrderRun(s, actions)
                                    && forall i :: 0 <= i < |actions| ==> StartsNothing(actions[i])
        ensures After(s, actions).live.exitCode.None?
      {
        LateExitCodeOverRun(s, actions);
        if RecordedIn(actions, s.live.gen) { RecordNeedsWatcher(s, actions, s.live.gen); }
      }
    }
  }

  /** What a watcher has recorded it does not record again. */
  lemma {:induction false} RecordNeedsWatcher(s: System, actions: seq<Action>, gen: nat)
    requires Sound(s) && Valid(s, actions) && RecordedIn(actions, gen)
    requires forall i :: 0 <= i < |actions| ==> StartsNothing(actions[i])
    ensures 1 <= gen <= |s.procs| && s.Of(gen).watcher == Watching
    decreases |actions|
  {
    RecordedFirst(actions, gen);
    if !(actions[0].Record? && actions[0].gen == gen) {
      RecordNeedsWatcher(Next(s, actions[0]), actions[1..], gen);
      WatcherOnlyAdvances(s, actions[0], gen);
    }
  }

  lemma WatcherOnlyAdvances(s: System, a: Action, gen: nat)
    requires Sound(s) && Enabled(s, a) && StartsNothing(a)
    requires 1 <= gen <= |Next(s, a).procs| && Next(s, a).Of(gen).watcher == Watching
    ensures gen <= |s.procs| && s.Of(gen).watcher == Watching
  {
  }

  lemma LateCodeComes(s: System)
    requires Inv(s) && s.live.status == Failed && StillWatched(s)
    ensures CanGetLateCode(s)
  {
    var g := s.live.gen;
    var actions := [Record(g, 0)] + [];
    if s.Of(g).running {
      var ended := Next(s, ProcessEnds(g, 0));
      Prepend(ended, Record(g, 0), []);
      Prepend(s, ProcessEnds(g, 0), [Record(g, 0)] + []);
      actions := [ProcessEnds(g, 0)] + ([Record(g, 0)] + []);
      assert actions[1..] == [Record(g, 0)] + [];
    } else {
      Prepend(s, Record(g, 0), []);
    }
    LateCodeRun(s, actions);
  }

  lemma {:induction false} LateCodeRun(s: System, actions: seq<Action>)
    requires Sound(s) && Valid(s, actions)
    requires forall i :: 0 <= i < |actions| ==> !actions[i].Enter?
    ensures InOrderRun(s, actions)
    decreases |actions|
  {
    if actions != [] { LateCodeRun(Next(s, actions[0]), actions[1..]); }
  }

  predicate GotLateCode(s: System, code: int) {
    s.op.Free? && s.live.status == Failed && s.live.exitCode == Some(code)
  }

  lemma EndAndRecord(s: System, code: int)
    requires Sound(s) && s.op.Free? && s.live.status == Failed && s.live.gen == 1 && s.live.stopRequested
    requires s.Of(1).running && s.Of(1).watcher == Watching
    ensures Valid(s, [ProcessEnds(1, code), Record(1, 0)])
    ensures GotLateCode(After(s, [ProcessEnds(1, code), Record(1, 0)]), code)
  {
    var ended := Next(s, ProcessEnds(1, code));
    Prepend(ended, Record(1, 0), []);
    Prepend(s, ProcessEnds(1, code), [Record(1, 0)] + []);
    assert [ProcessEnds(1, code)] + ([Record(1, 0)] + []) == [ProcessEnds(1, code), Record(1, 0)];
  }

  // Deleting.

  /** An operation that may still start a process. */
  predicate MayStart(kind: Kind) { kind == RunOp || kind == RestartOp }

  /** Nothing that could start a process is left. */
  predicate Settled(s: System) {
    && !s.registered && !s.registering && RunOp !in s.looked && RestartOp !in s.looked
    && (s.op.Free? || !MayStart(s.op.kind))
  }

  lemma {:induction false} SettledStays(s: System, actions: seq<Action>)
    requires Sound(s) && Valid(s, actions) && Settled(s)
    ensures Settled(After(s, actions)) && |After(s, actions).procs| == |s.procs|
    decreases |actions|
  {
    if actions != [] { SettledStays(Next(s, actions[0]), actions[1..]); }
  }

  ghost predicate CanStartAgain(s: System)
    requires Sound(s)
  {
    exists actions: seq<Action> :: Valid(s, actions) && |After(s, actions).procs| > |s.procs|
  }

  /**
   Once a deleted entry's lock is free, something can still start a process on it exactly when its first start is yet to
   come, or a run or a restart had found it before it was removed.
   */
  lemma DeletedStaysDownIff(s: System)
    requires Sound(s) && s.op.Free? && !s.registered
    requires s.live.status == Running ==> Inv(s.(registering := false))
    ensures CanStartAgain(s) <==> s.registering || RunOp in s.looked || RestartOp in s.looked
  {
    if s.registering {
      FirstStartStarts(s);
    } else if RunOp in s.looked || RestartOp in s.looked {
      FoundStarts(s);
    } else {
      forall actions: seq<Action> | Valid(s, actions) ensures |After(s, actions).procs| == |s.procs| {
        SettledStays(s, actions);
      }
    }
  }

  lemma FirstStartStarts(s: System)
    requires Sound(s) && s.registering
    ensures CanStartAgain(s)
  {
    Prepend(s, RegisterStart(Up(0, false), 0), []);
    assert |After(s, [RegisterStart(Up(0, false), 0)] + []).procs| > |s.procs|;
  }

  lemma FoundStarts(s: System)
    requires Sound(s) && s.op.Free? && (RunOp in s.looked || RestartOp in s.looked)
    requires s.live.status == Running ==> Inv(s.(registering := false))
    ensures CanStartAgain(s)
  {
    if s.live.status == Running {
      var over := EndIt(s);
      var t := After(s, over);
      StartsWhenDown(t);
      var more: seq<Action> :| Valid(t, more) && |After(t, more).procs| > |t.procs|;
      Follow(s, over, more);
    } else {
      StartsWhenDown(s);
    }
  }

  lemma StartsWhenDown(s: System)
    requires Sound(s) && s.op.Free? && s.live.status != Running && (RunOp in s.looked || RestartOp in s.looked)
    ensures CanStartAgain(s)
  {
    if RunOp in s.looked { RunAgain(s); } else { RestartAgain(s); }
  }

  /** The run of an entry that nothing is stopping ends by itself. */
  lemma EndIt(s: System) returns (actions: seq<Action>)
    requires Sound(s) && s.op.Free? && s.live.status == Running && Inv(s.(registering := false))
    ensures Valid(s, actions)
    ensures var r := After(s, actions);
      r.op.Free? && r.looked == s.looked && r.live.status != Running && |r.procs| == |s.procs|
  {
    var g := s.live.gen;
    if s.Of(g).running {
      var ended := Next(s, ProcessEnds(g, 0));
      RecordIt(ended);
      Prepend(s, ProcessEnds(g, 0), [Record(g, 0)] + []);
      actions := [ProcessEnds(g, 0)] + ([Record(g, 0)] + []);
    } else {
      RecordIt(s);
      actions := [Record(g, 0)] + [];
    }
  }

  lemma RecordIt(s: System)
    requires Sound(s) && s.op.Free? && s.live.status == Running && !s.live.stopRequested
    requires !s.Of(s.live.gen).running && s.Of(s.live.gen).watcher == Watching
    ensures Valid(s, [Record(s.live.gen, 0)] + [])
    ensures var r := After(s, [Record(s.live.gen, 0)] + []);
      r.op.Free? && r.looked == s.looked && r.live.status != Running && |r.procs| == |s.procs|
  {
    Prepend(s, Record(s.live.gen, 0), []);
  }

  lemma RunAgain(s: System)
    requires Sound(s) && s.op.Free? && s.live.status != Running && RunOp in s.looked
    ensures CanStartAgain(s)
  {
    var inside := Next(s, Enter(RunOp));
    Prepend(inside, Start(Up(0, false), 0), []);
    Prepend(s, Enter(RunOp), [Start(Up(0, false), 0)] + []);
  }

  lemma RestartAgain(s: System)
    requires Sound(s) && s.op.Free? && s.live.status != Running && RestartOp in s.looked
    ensures CanStartAgain(s)
  {
    var inside := Next(s, Enter(RestartOp));
    var ready := Next(inside, Ask);
    Prepend(ready, Start(Up(0, false), 0), []);
    Prepend(inside, Ask, [Start(Up(0, false), 0)] + []);
    Prepend(s, Enter(RestartOp), [Ask] + ([Start(Up(0, false), 0)] + []));
  }
}
