/**
 Starting the opted-in entries against shutting down. Both sides hold the auto-start lock for as long as they look at
 the entries; the shutdown closes `stop` before it asks for that lock.
 */
module Handshake {
  import opened Basics
  import opened Entry
  import opened Protocol
  import opened ProtocolSafety
  import opened ProtocolRuns

  type Id = string

  /** The one auto-start: holding the lock with entries still to look at, or inside the Run of one of them. */
  datatype Auto = NotBegun | Holding(rest: seq<Id>) | Starting(id: Id, rest: seq<Id>) | AutoDone

  /**
   The one shutdown. Within StopChildren: the entries whose status is still to be read, those found running whose stop
   has not taken the operation lock, and those being stopped.
   */
  datatype Shut = Serving | StopClosed | Stopping(todo: set<Id>, pending: set<Id>, active: set<Id>) | Returned

  datatype World = World(entries: map<Id, System>, optedIn: set<Id>, auto: Auto, shut: Shut)
  {
    predicate AutoHolds() { auto.Holding? || auto.Starting? }

    function With(id: Id, s: System): World { this.(entries := entries[id := s]) }
  }

  datatype Move =
    | AutoBegin(order: seq<Id>)
    | AutoNext
    | AutoStep(a: Action)
    | AutoEnd
    | CloseStop
    | StopBegin
    | Survey(id: Id)
    | ChildBegin(id: Id)
    | ChildStep(id: Id, a: Action)
    | ChildEnd(id: Id)
    | StopReturn
    | Outside(id: Id, a: Action)

  /** What the operating system and the watchers do. */
  predicate OutsideAction(a: Action) { a.ProcessEnds? || a.Record? || a.CloseExited? }

  predicate StopAction(a: Action) { a.Ask? || a.Wait? || a.WaitAgain? || a.CloseGroup? || a.Finish? }

  predicate Distinct(ids: seq<Id>) { forall i, j :: 0 <= i < j < |ids| ==> ids[i] != ids[j] }

  ghost predicate AllSound(w: World) { forall id :: id in w.entries ==> Sound(w.entries[id]) }

  ghost predicate Allowed(w: World, m: Move)
    requires AllSound(w)
  {
    match m
    case AutoBegin(order) => w.auto.NotBegun? && !w.shut.Stopping? && Distinct(order) &&
      forall id :: id in order <==> id in w.entries
    case AutoNext => w.auto.Holding? && NextFound(w)
    case AutoStep(a) =>
      w.auto.Starting? && w.auto.id in w.entries && (a == Enter(RunOp) || a.Start?) && Enabled(w.entries[w.auto.id], a)
    case AutoEnd => w.auto.Starting? && w.auto.id in w.entries && Enabled(w.entries[w.auto.id], Leave)
    case CloseStop => w.shut.Serving?
    case StopBegin => w.shut.StopClosed? && !w.AutoHolds()
    case Survey(id) => w.shut.Stopping? && id in w.shut.todo && id in w.entries
    case ChildBegin(id) => w.shut.Stopping? && id in w.shut.pending && id in w.entries && w.entries[id].op.Free?
    case ChildStep(id, a) =>
      w.shut.Stopping? && id in w.shut.active && id in w.entries && StopAction(a) && Enabled(w.entries[id], a)
    case ChildEnd(id) => w.shut.Stopping? && id in w.shut.active && id in w.entries && Enabled(w.entries[id], Leave)
    case StopReturn => w.shut.Stopping? && w.shut.todo == w.shut.pending == w.shut.active == {}
    case Outside(id, a) => id in w.entries && OutsideAction(a) && Enabled(w.entries[id], a)
  }

  predicate NextFound(w: World)
    requires w.auto.Holding?
  {
    w.auto.rest != [] ==> w.auto.rest[0] in w.entries && w.entries[w.auto.rest[0]].registered
  }

  /** The next entry of the listing: none is started once `stop` is closed. */
  function AutoNextStep(w: World): World
    requires w.auto.Holding? && NextFound(w) && (w.auto.rest != [] ==> Sound(w.entries[w.auto.rest[0]]))
  {
    var rest := w.auto.rest;
    if rest == [] || !w.shut.Serving? then w.(auto := AutoDone)
    else if rest[0] !in w.optedIn then w.(auto := Holding(rest[1..]))
    else w.With(rest[0], Next(w.entries[rest[0]], Lookup(RunOp))).(auto := Starting(rest[0], rest[1..]))
  }

  ghost function Step(w: World, m: Move): (r: World)
    requires AllSound(w) && Allowed(w, m)
    ensures AllSound(r)
  {
    match m
    case AutoBegin(order) => w.(auto := Holding(order))
    case AutoNext => AutoNextStep(w)
    case AutoStep(a) => w.With(w.auto.id, Next(w.entries[w.auto.id], a))
    case AutoEnd => w.With(w.auto.id, Next(w.entries[w.auto.id], Leave)).(auto := Holding(w.auto.rest))
    case CloseStop => w.(shut := StopClosed)
    case StopBegin => w.(shut := Stopping(w.entries.Keys, {}, {}))
    case Survey(id) =>
      w.(shut := Stopping(w.shut.todo - {id},
                          w.shut.pending + (if w.entries[id].live.status == Running then {id} else {}), w.shut.active))
    case ChildBegin(id) =>
      w.With(id, w.entries[id].(op := Entered(StopOp)))
        .(shut := Stopping(w.shut.todo, w.shut.pending - {id}, w.shut.active + {id}))
    case ChildStep(id, a) => w.With(id, Next(w.entries[id], a))
    case ChildEnd(id) =>
      w.With(id, Next(w.entries[id], Leave)).(shut := Stopping(w.shut.todo, w.shut.pending, w.shut.active - {id}))
    case StopReturn => w.(shut := Returned)
    case Outside(id, a) => w.With(id, Next(w.entries[id], a))
  }

  /** What an entry may be in the middle of: the one Run of the auto-start, or the stop of its own child thread. */
  predicate OpFits(w: World, id: Id)
    requires id in w.entries
  {
    var s := w.entries[id];
    if w.auto.Starting? && w.auto.id == id then
      if s.looked == multiset{} then s.op == Entered(RunOp) || s.op == Leaving(RunOp)
      else s.op.Free? && s.looked == multiset{RunOp}
    else if w.shut.Stopping? && id in w.shut.active then s.looked == multiset{} && !s.op.Free? && s.op.kind == StopOp
    else s.looked == multiset{} && s.op.Free?
  }

  /** The shutdown is through with the entry. */
  predicate Finished(w: World, id: Id) {
    w.shut.Returned? || (w.shut.Stopping? && id !in w.shut.todo && id !in w.shut.pending && id !in w.shut.active)
  }

  predicate EntryOk(w: World, id: Id)
    requires id in w.entries
  {
    && w.entries[id].registered && !w.entries[id].registering && OpFits(w, id)
    && (Finished(w, id) ==> w.entries[id].live.status != Running)
    && StartsOk(w, id)
  }

  /** The auto-start has not come to the entry, or has and not tried to start it yet. */
  predicate Untouched(w: World, id: Id)
    requires id in w.entries
  {
    match w.auto
    case NotBegun => true
    case Holding(rest) => id in rest
    case Starting(now, rest) => id in rest || (id == now && (w.entries[id].op.Free? || w.entries[id].op.Entered?))
    case AutoDone => false
  }

  predicate StartsOk(w: World, id: Id)
    requires id in w.entries
  {
    var starts := |w.entries[id].procs|;
    starts <= 1 && (id !in w.optedIn || Untouched(w, id) ==> starts == 0)
  }

  predicate PhaseOk(w: World) {
    && (w.shut.Stopping? ==> !w.AutoHolds())
    && (w.shut.Returned? ==> !w.auto.Starting?)
    && (w.auto.Holding? ==> Distinct(w.auto.rest))
    && (w.auto.Starting? ==> Distinct(w.auto.rest) && w.auto.id !in w.auto.rest && w.auto.id in w.optedIn)
    && (w.shut.Stopping? ==>
          (w.shut.todo !! w.shut.pending && w.shut.todo !! w.shut.active && w.shut.pending !! w.shut.active))
  }

  ghost predicate WorldInv(w: World) {
    && PhaseOk(w)
    && forall id :: id in w.entries ==> Inv(w.entries[id]) && EntryOk(w, id)
  }

  /** Nothing from outside starts a process, and it cannot bring up an entry that is down. */
  lemma OutsideKeepsDown(s: System, a: Action)
    requires Inv(s) && OutsideAction(a) && Enabled(s, a)
    ensures var r := Next(s, a);
      Inv(r) && r == s.(procs := r.procs, live := r.live) && |r.procs| == |s.procs|
      && (s.live.status != Running ==> r.live.status != Running)
  {
    StepKeepsInv(s, a);
  }

  /** Two phases that differ for one entry only. */
  predicate SameFor(w: World, r: World, other: Id)
    requires other in w.entries && other in r.entries
  {
    && r.optedIn == w.optedIn && (Untouched(r, other) ==> Untouched(w, other))
    && ((w.auto.Starting? && w.auto.id == other) <==> (r.auto.Starting? && r.auto.id == other))
    && (w.shut.Stopping? <==> r.shut.Stopping?) && (w.shut.Returned? <==> r.shut.Returned?)
    && (w.shut.Stopping? ==> ((other in w.shut.todo <==> other in r.shut.todo)
                              && (other in w.shut.pending <==> other in r.shut.pending)
                              && (other in w.shut.active <==> other in r.shut.active)))
  }

  /** A move that changes one entry, and the phase for that entry only. */
  lemma OneEntryMoves(w: World, r: World, id: Id, s: System)
    requires WorldInv(w) && id in w.entries && r.entries == w.entries[id := s]
    requires forall other :: other in w.entries && other != id ==> SameFor(w, r, other)
    requires Inv(s) && EntryOk(r, id) && PhaseOk(r)
    ensures WorldInv(r)
  {
    forall other | other in r.entries ensures Inv(r.entries[other]) && EntryOk(r, other) {
      if other != id { assert EntryOk(w, other) && Inv(w.entries[other]) && SameFor(w, r, other); }
    }
  }

  /** A move of the auto-start that changes no entry. */
  lemma AutoKeepsInv(w: World, r: World)
    requires WorldInv(w) && r == w.(auto := r.auto) && !w.auto.Starting? && !r.auto.Starting? && PhaseOk(r)
    requires forall id :: id in w.entries && Untouched(r, id) ==> Untouched(w, id)
    ensures WorldInv(r)
  {
    forall id | id in r.entries ensures Inv(r.entries[id]) && EntryOk(r, id) {
      assert EntryOk(w, id) && Inv(w.entries[id]);
    }
  }

  lemma AutoNextKeepsInv(w: World)
    requires WorldInv(w) && Allowed(w, AutoNext)
    ensures WorldInv(AutoNextStep(w))
  {
    var r := AutoNextStep(w);
    if r.auto.Starting? {
      var id := r.auto.id;
      assert EntryOk(w, id);
      StepKeepsInv(w.entries[id], Lookup(RunOp));
      OneEntryMoves(w, r, id, r.entries[id]);
    } else {
      AutoKeepsInv(w, r);
    }
  }

  /** The Run of an auto-start goes from found to entered to started to left. */
  lemma RunStays(s: System, a: Action)
    requires Inv(s) && !s.registering && Enabled(s, a) && (a == Enter(RunOp) || a.Start? || a.Leave?)
    requires if s.looked == multiset{} then s.op == Entered(RunOp) || s.op == Leaving(RunOp)
             else s.op.Free? && s.looked == multiset{RunOp}
    ensures var r := Next(s, a);
      Inv(r) && r.registered == s.registered && !r.registering && r.looked == multiset{} &&
      |r.procs| <= |s.procs| + (if a.Start? then 1 else 0) && (a.Start? ==> s.op.Entered? && r.op.Leaving?) &&
      if a.Leave? then r.op.Free? else r.op == Entered(RunOp) || r.op == Leaving(RunOp)
  {
    StepKeepsInv(s, a);
  }

  /** A move of the Run that the auto-start is in, which goes on or is over. */
  lemma AutoMoves(w: World, s: System, over: bool)
    requires WorldInv(w) && w.auto.Starting? && w.auto.id in w.entries && Inv(s)
    requires s.registered && !s.registering && s.looked == multiset{}
    requires if over then s.op.Free? else s.op == Entered(RunOp) || s.op == Leaving(RunOp)
    requires |s.procs| <= if s.op.Entered? then 0 else 1
    ensures WorldInv(w.With(w.auto.id, s).(auto := if over then Holding(w.auto.rest) else w.auto))
  {
    assert EntryOk(w, w.auto.id);
    OneEntryMoves(w, w.With(w.auto.id, s).(auto := if over then Holding(w.auto.rest) else w.auto), w.auto.id, s);
  }

  lemma AutoStepKeepsInv(w: World, a: Action)
    requires WorldInv(w) && Allowed(w, AutoStep(a))
    ensures WorldInv(Step(w, AutoStep(a)))
  {
    assert EntryOk(w, w.auto.id);
    RunStays(w.entries[w.auto.id], a);
    AutoMoves(w, Next(w.entries[w.auto.id], a), false);
  }

  lemma AutoEndKeepsInv(w: World)
    requires WorldInv(w) && Allowed(w, AutoEnd)
    ensures WorldInv(Step(w, AutoEnd))
  {
    assert EntryOk(w, w.auto.id);
    RunStays(w.entries[w.auto.id], Leave);
    AutoMoves(w, Next(w.entries[w.auto.id], Leave), true);
  }

  lemma ShutKeepsInv(w: World, m: Move)
    requires WorldInv(w) && Allowed(w, m) && (m.CloseStop? || m.StopBegin? || m.Survey? || m.StopReturn?)
    ensures WorldInv(Step(w, m))
  {
    var r := Step(w, m);
    forall id | id in r.entries ensures Inv(r.entries[id]) && EntryOk(r, id) {
      assert EntryOk(w, id) && Inv(w.entries[id]);
    }
  }

  /** A move of the thread that stops one entry, which goes on or is over. */
  lemma ChildMoves(w: World, id: Id, s: System, over: bool)
    requires WorldInv(w) && w.shut.Stopping? && id in w.entries && id !in w.shut.todo && Inv(s)
    requires s.registered && !s.registering && s.looked == multiset{} && |s.procs| == |w.entries[id].procs|
    requires if over then s.op.Free? && s.live.status != Running else !s.op.Free? && s.op.kind == StopOp
    ensures WorldInv(w.With(id, s).(shut := Stopping(w.shut.todo, w.shut.pending - {id},
                                                     if over then w.shut.active - {id} else w.shut.active + {id})))
  {
    assert EntryOk(w, id);
    var active := if over then w.shut.active - {id} else w.shut.active + {id};
    OneEntryMoves(w, w.With(id, s).(shut := Stopping(w.shut.todo, w.shut.pending - {id}, active)), id, s);
  }

  lemma ChildBeginKeepsInv(w: World, id: Id)
    requires WorldInv(w) && Allowed(w, ChildBegin(id))
    ensures WorldInv(Step(w, ChildBegin(id)))
  {
    assert EntryOk(w, id);
    EnterKeepsInv(w.entries[id]);
    ChildMoves(w, id, w.entries[id].(op := Entered(StopOp)), false);
  }

  lemma EnterKeepsInv(s: System)
    requires Inv(s) && s.op.Free? && !s.registering
    ensures Inv(s.(op := Entered(StopOp)))
  {
    var r := s.(op := Entered(StopOp));
    forall g | 1 <= g <= |r.procs| ensures ProcOk(r.Of(g), g, r.live, r.op) {
      assert ProcOk(s.Of(g), g, s.live, s.op);
    }
  }

  /** A stop keeps hold of its entry until it leaves, and leaves it down. */
  lemma StopStays(s: System, a: Action)
    requires Inv(s) && !s.op.Free? && s.op.kind == StopOp && Enabled(s, a)
    requires StopAction(a) || a.Leave?
    ensures var r := Next(s, a);
      r.looked == s.looked && r.registering == s.registering && r.registered == s.registered && |r.procs| == |s.procs|
      && (a.Leave? ==> r.op.Free? && r.live.status != Running) && (!a.Leave? ==> !r.op.Free? && r.op.kind == StopOp)
  {
  }

  lemma ChildStepKeepsInv(w: World, id: Id, a: Action)
    requires WorldInv(w) && Allowed(w, ChildStep(id, a))
    ensures WorldInv(Step(w, ChildStep(id, a)))
  {
    assert EntryOk(w, id);
    StopStays(w.entries[id], a);
    StepKeepsInv(w.entries[id], a);
    ChildMoves(w, id, Next(w.entries[id], a), false);
    assert w.shut.pending - {id} == w.shut.pending && w.shut.active + {id} == w.shut.active;
  }

  lemma ChildEndKeepsInv(w: World, id: Id)
    requires WorldInv(w) && Allowed(w, ChildEnd(id))
    ensures WorldInv(Step(w, ChildEnd(id)))
  {
    assert EntryOk(w, id);
    StopStays(w.entries[id], Leave);
    StepKeepsInv(w.entries[id], Leave);
    ChildMoves(w, id, Next(w.entries[id], Leave), true);
    assert w.shut.pending - {id} == w.shut.pending;
  }

  lemma OutsideKeepsInv(w: World, id: Id, a: Action)
    requires WorldInv(w) && Allowed(w, Outside(id, a))
    ensures WorldInv(Step(w, Outside(id, a)))
  {
    OutsideKeepsDown(w.entries[id], a);
    ProcessMoves(w, id, Next(w.entries[id], a));
  }

  lemma ProcessMoves(w: World, id: Id, s: System)
    requires WorldInv(w) && id in w.entries && Inv(s) && s == w.entries[id].(procs := s.procs, live := s.live)
    requires |s.procs| == |w.entries[id].procs|
    requires w.entries[id].live.status != Running ==> s.live.status != Running
    ensures WorldInv(w.With(id, s))
  {
    assert EntryOk(w, id);
    OneEntryMoves(w, w.With(id, s), id, s);
  }

  lemma MoveKeepsInv(w: World, m: Move)
    requires WorldInv(w) && Allowed(w, m)
    ensures WorldInv(Step(w, m))
  {
    match m
    case AutoStep(a) => AutoStepKeepsInv(w, a);
    case ChildBegin(id) => ChildBeginKeepsInv(w, id);
    case ChildStep(id, a) => ChildStepKeepsInv(w, id, a);
    case ChildEnd(id) => ChildEndKeepsInv(w, id);
    case Outside(id, a) => OutsideKeepsInv(w, id, a);
    case AutoBegin(_) => AutoKeepsInv(w, Step(w, m));
    case AutoNext => AutoNextKeepsInv(w);
    case AutoEnd => AutoEndKeepsInv(w);
    case _ => ShutKeepsInv(w, m);
  }

  // Whole runs.

  ghost predicate Valid(w: World, moves: seq<Move>)
    requires AllSound(w)
    decreases |moves|
  {
    moves == [] || (Allowed(w, moves[0]) && Valid(Step(w, moves[0]), moves[1..]))
  }

  ghost function After(w: World, moves: seq<Move>): (r: World)
    requires AllSound(w) && Valid(w, moves)
    ensures AllSound(r)
    decreases |moves|
  {
    if moves == [] then w else After(Step(w, moves[0]), moves[1..])
  }

  lemma {:induction false} RunKeepsWorldInv(w: World, moves: seq<Move>)
    requires WorldInv(w) && Valid(w, moves)
    ensures WorldInv(After(w, moves))
    decreases |moves|
  {
    if moves != [] {
      MoveKeepsInv(w, moves[0]);
      RunKeepsWorldInv(Step(w, moves[0]), moves[1..]);
    }
  }

  /** After StopChildren has returned, a move leaves every entry down and starts nothing. */
  lemma MoveAfterReturn(w: World, m: Move)
    requires WorldInv(w) && Allowed(w, m) && w.shut.Returned?
    ensures var r := Step(w, m);
      r.shut.Returned? && r.entries.Keys == w.entries.Keys &&
      forall id :: id in w.entries ==> |r.entries[id].procs| == |w.entries[id].procs|
  {
    if m.Outside? { OutsideKeepsDown(w.entries[m.id], m.a); }
  }

  /** Once StopChildren has returned nothing is running, and no move starts anything any more. */
  lemma {:induction false} ReturnedIsFinal(w: World, moves: seq<Move>)
    requires WorldInv(w) && Valid(w, moves) && w.shut.Returned?
    ensures var r := After(w, moves);
      r.shut.Returned? && r.entries.Keys == w.entries.Keys &&
      forall id :: id in w.entries ==>
        r.entries[id].live.status != Running && |r.entries[id].procs| == |w.entries[id].procs|
    decreases |moves|
  {
    if moves != [] {
      MoveKeepsInv(w, moves[0]);
      MoveAfterReturn(w, moves[0]);
      ReturnedIsFinal(Step(w, moves[0]), moves[1..]);
    } else {
      forall id | id in w.entries ensures w.entries[id].live.status != Running {
        assert EntryOk(w, id);
      }
    }
  }

  /** A server that has just restored its entries. */
  ghost predicate Restored(w: World) {
    && w.auto.NotBegun? && w.shut.Serving?
    && forall id :: id in w.entries ==> w.entries[id] == NewEntry(false)
  }

  /**
   Whatever way the auto-start and the shutdown interleave, from the return of StopChildren on every process ever
   started has ended or was reported, and none is started any more.
   */
  lemma ShutdownLeavesNothing(w: World, moves: seq<Move>, more: seq<Move>, id: Id)
    requires Restored(w) && Valid(w, moves) && After(w, moves).shut.Returned? && Valid(After(w, moves), more)
    requires id in After(w, moves).entries
    ensures var returned, later := After(w, moves), After(After(w, moves), more);
      id in later.entries && later.entries[id].live.status != Running
      && |later.entries[id].procs| == |returned.entries[id].procs|
      && forall g :: 1 <= g <= |later.entries[id].procs| && later.entries[id].Of(g).running ==>
           later.entries[id].Of(g).reported
  {
    RunKeepsWorldInv(w, moves);
    RunKeepsWorldInv(After(w, moves), more);
    ReturnedIsFinal(After(w, moves), more);
    InvMeans(After(After(w, moves), more).entries[id]);
  }

  /** The auto-start starts no entry twice, and none that has not opted in. */
  lemma StartedAtMostOnce(w: World, moves: seq<Move>, id: Id)
    requires Restored(w) && Valid(w, moves) && id in After(w, moves).entries
    ensures var r := After(w, moves);
      |r.entries[id].procs| <= if id in r.optedIn then 1 else 0
  {
    RunKeepsWorldInv(w, moves);
    assert EntryOk(After(w, moves), id);
  }
}
