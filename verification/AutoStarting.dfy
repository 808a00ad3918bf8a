/** What the auto-start does when nothing cuts it short. */
module AutoStarting {
  import opened Basics
  import opened Ordering
  import opened Entry
  import opened Protocol
  import opened ProtocolSafety
  import opened Handshake

  /** The auto-start has still to call Run for the entry, if it opted in. */
  predicate ToCall(w: World, id: Id)
    requires id in w.entries
  {
    match w.auto
    case NotBegun => true
    case Holding(rest) => id in rest
    case Starting(now, rest) => id in rest || (id == now && w.entries[id].op.Free?)
    case AutoDone => false
  }

  /** The move is the auto-start's Run of the entry taking its lock. */
  predicate Calls(w: World, m: Move, id: Id) { m == AutoStep(Enter(RunOp)) && w.auto.Starting? && w.auto.id == id }

  /** How often a run of moves calls Run for the entry. */
  ghost function CallsOver(w: World, moves: seq<Move>, id: Id): nat
    requires AllSound(w) && Valid(w, moves)
    decreases |moves|
  {
    if moves == [] then 0
    else (if Calls(w, moves[0], id) then 1 else 0) + CallsOver(Step(w, moves[0]), moves[1..], id)
  }

  /** An opted-in entry stops waiting for its call exactly by that call. */
  predicate Counted(w: World, r: World, id: Id, called: bool)
    requires id in w.entries && id in r.entries
  {
    && r.optedIn == w.optedIn
    && (id in w.optedIn ==> (ToCall(r, id) <==> ToCall(w, id) && !called))
    && (called ==> id in w.optedIn && ToCall(w, id))
  }

  lemma OutsideCounts(w: World, m: Move, id: Id)
    requires WorldInv(w) && Allowed(w, m) && id in w.entries && m.Outside?
    ensures id in Step(w, m).entries && Counted(w, Step(w, m), id, false)
  {
    OutsideKeepsDown(w.entries[m.id], m.a);
  }

  lemma NextCounts(w: World, id: Id)
    requires w.auto.Holding? && NextFound(w) && (w.auto.rest != [] ==> Sound(w.entries[w.auto.rest[0]]))
    requires PhaseOk(w) && id in w.entries && w.entries[id].op.Free? && w.shut.Serving?
    ensures id in AutoNextStep(w).entries && Counted(w, AutoNextStep(w), id, false)
  {
    var rest := w.auto.rest;
    if rest != [] { assert id in rest <==> id == rest[0] || id in rest[1..]; }
  }

  lemma HoldingIsFree(w: World, id: Id)
    requires WorldInv(w) && w.auto.Holding? && w.shut.Serving? && id in w.entries
    ensures PhaseOk(w) && w.entries[id].op.Free?
  {
    assert EntryOk(w, id);
  }

  lemma StepCounts(w: World, m: Move, id: Id)
    requires WorldInv(w) && Allowed(w, m) && id in w.entries && m.AutoStep?
    ensures id in Step(w, m).entries && Counted(w, Step(w, m), id, Calls(w, m, id))
  {
    assert EntryOk(w, w.auto.id);
    RunStays(w.entries[w.auto.id], m.a);
  }

  /** The auto-start leaves the Run it is in. */
  function Left(w: World): World
    requires w.auto.Starting? && w.auto.id in w.entries
  {
    w.With(w.auto.id, w.entries[w.auto.id].(op := Free)).(auto := Holding(w.auto.rest))
  }

  lemma EndLeaves(w: World)
    requires WorldInv(w) && Allowed(w, AutoEnd)
    ensures Step(w, AutoEnd) == Left(w) && w.entries[w.auto.id].op == Leaving(RunOp)
  {
    assert EntryOk(w, w.auto.id);
  }

  lemma EndCounts(w: World, id: Id)
    requires w.auto.Starting? && w.auto.id in w.entries && id in w.entries && !w.entries[w.auto.id].op.Free?
    ensures Counted(w, Left(w), id, false)
  {
  }

  lemma MoveCounts(w: World, m: Move, id: Id)
    requires WorldInv(w) && Allowed(w, m) && id in w.entries && w.shut.Serving? && !m.CloseStop?
    ensures id in Step(w, m).entries && Counted(w, Step(w, m), id, Calls(w, m, id))
  {
    match m
    case Outside(_, _) => OutsideCounts(w, m, id);
    case AutoNext =>
      HoldingIsFree(w, id);
      NextCounts(w, id);
    case AutoStep(_) => StepCounts(w, m, id);
    case AutoEnd =>
      EndLeaves(w);
      EndCounts(w, id);
    case AutoBegin(_) =>
  }

  /** Once `stop` is closed it stays closed. */
  lemma MoveKeepsPhase(w: World, m: Move)
    requires WorldInv(w) && Allowed(w, m)
    ensures Step(w, m).shut.Serving? <==> w.shut.Serving? && !m.CloseStop?
  {
  }

  lemma {:induction false} ServingAllAlong(w: World, moves: seq<Move>)
    requires WorldInv(w) && Valid(w, moves) && After(w, moves).shut.Serving?
    ensures w.shut.Serving?
    decreases |moves|
  {
    if moves != [] {
      MoveKeepsInv(w, moves[0]);
      ServingAllAlong(Step(w, moves[0]), moves[1..]);
      MoveKeepsPhase(w, moves[0]);
    }
  }

  lemma {:induction false} CallsLeft(w: World, moves: seq<Move>, id: Id)
    requires WorldInv(w) && Valid(w, moves) && id in w.entries
    requires After(w, moves).auto.AutoDone? && After(w, moves).shut.Serving?
    ensures CallsOver(w, moves, id) == if id in w.optedIn && ToCall(w, id) then 1 else 0
    decreases |moves|
  {
    if moves != [] {
      MoveKeepsInv(w, moves[0]);
      ServingAllAlong(Step(w, moves[0]), moves[1..]);
      MoveKeepsPhase(w, moves[0]);
      MoveCounts(w, moves[0], id);
      CallsLeft(Step(w, moves[0]), moves[1..], id);
    }
  }

  /**
   An auto-start that finishes while the server is serving has called Run once for each opted-in entry, and for no
   other.
   */
  lemma AutoStartCallsEach(w: World, moves: seq<Move>, id: Id)
    requires Restored(w) && Valid(w, moves) && id in w.entries
    requires After(w, moves).auto.AutoDone? && After(w, moves).shut.Serving?
    ensures CallsOver(w, moves, id) == if id in w.optedIn then 1 else 0
  {
    CallsLeft(w, moves, id);
  }

  /** What a Run that had an entry to start leaves: a process, or the failure to start one. */
  predicate Tried(s: System) { |s.procs| == 1 || s.live.status == Failed }

  ghost predicate TriedOk(w: World, id: Id) {
    id in w.entries && (w.shut.Serving? && id in w.optedIn && !Untouched(w, id) ==> Tried(w.entries[id]))
  }

  lemma OutsideKeepsTried(s: System, a: Action)
    requires Inv(s) && OutsideAction(a) && Enabled(s, a) && |s.procs| <= 1 && Tried(s)
    ensures Tried(Next(s, a))
  {
  }

  lemma RunTries(s: System, a: Action)
    requires Inv(s) && Enabled(s, a) && a.Start? && s.op == Entered(RunOp) && s.procs == []
    ensures Tried(Next(s, a))
  {
  }

  lemma OutsideKeepsTriedOk(w: World, m: Move, id: Id)
    requires WorldInv(w) && Allowed(w, m) && TriedOk(w, id) && m.Outside?
    ensures TriedOk(Step(w, m), id)
  {
    assert EntryOk(w, id);
    OutsideKeepsDown(w.entries[m.id], m.a);
    if m.id == id && Tried(w.entries[id]) { OutsideKeepsTried(w.entries[id], m.a); }
  }

  lemma StepKeepsTriedOk(w: World, m: Move, id: Id)
    requires WorldInv(w) && Allowed(w, m) && TriedOk(w, id) && m.AutoStep?
    ensures TriedOk(Step(w, m), id)
  {
    assert EntryOk(w, id) && EntryOk(w, w.auto.id);
    RunStays(w.entries[w.auto.id], m.a);
    if w.auto.id == id && m.a.Start? { RunTries(w.entries[id], m.a); }
  }

  lemma NextKeepsTriedOk(w: World, m: Move, id: Id)
    requires WorldInv(w) && Allowed(w, m) && TriedOk(w, id) && (m.AutoNext? || m.AutoBegin?)
    ensures TriedOk(Step(w, m), id)
  {
    assert EntryOk(w, id);
  }

  lemma EndKeepsTriedOk(w: World, id: Id)
    requires w.auto.Starting? && w.auto.id in w.entries && w.entries[w.auto.id].op == Leaving(RunOp) && TriedOk(w, id)
    ensures TriedOk(Left(w), id)
  {
  }

  lemma MoveKeepsTried(w: World, m: Move, id: Id)
    requires WorldInv(w) && Allowed(w, m) && TriedOk(w, id)
    ensures TriedOk(Step(w, m), id)
  {
    MoveKeepsPhase(w, m);
    match m
    case Outside(_, _) => OutsideKeepsTriedOk(w, m, id);
    case AutoStep(_) => StepKeepsTriedOk(w, m, id);
    case AutoEnd =>
      EndLeaves(w);
      EndKeepsTriedOk(w, id);
    case AutoNext => NextKeepsTriedOk(w, m, id);
    case AutoBegin(_) => NextKeepsTriedOk(w, m, id);
    case _ =>
  }

  lemma {:induction false} RunKeepsTried(w: World, moves: seq<Move>, id: Id)
    requires WorldInv(w) && Valid(w, moves) && TriedOk(w, id)
    ensures TriedOk(After(w, moves), id)
    decreases |moves|
  {
    if moves != [] {
      MoveKeepsInv(w, moves[0]);
      MoveKeepsTried(w, moves[0], id);
      RunKeepsTried(Step(w, moves[0]), moves[1..], id);
    }
  }

  /** So each of them has been started, or carries the reason why it could not be. */
  lemma AutoStartStartsEach(w: World, moves: seq<Move>, id: Id)
    requires Restored(w) && Valid(w, moves) && id in w.entries && id in After(w, moves).optedIn
    requires After(w, moves).auto.AutoDone? && After(w, moves).shut.Serving?
    ensures TriedOk(After(w, moves), id) && Tried(After(w, moves).entries[id])
  {
    RunKeepsTried(w, moves, id);
  }

  // It does come to its end.

  lemma MoveFirst(w: World, m: Move, rest: seq<Move>)
    requires AllSound(w) && Allowed(w, m) && Handshake.Valid(Step(w, m), rest)
    ensures Handshake.Valid(w, [m] + rest)
    ensures Handshake.After(w, [m] + rest) == Handshake.After(Step(w, m), rest)
  {
    assert ([m] + rest)[1..] == rest;
  }

  /** The auto-start, serving, has these entries still to look at. */
  ghost predicate LooksAt(w: World, rest: seq<Id>) {
    WorldInv(w) && w.shut.Serving? && w.auto == Holding(rest) && forall id :: id in rest ==> id in w.entries
  }

  ghost predicate Ends(w: World, moves: seq<Move>)
    requires AllSound(w)
  {
    && Handshake.Valid(w, moves)
    && Handshake.After(w, moves).auto.AutoDone? && Handshake.After(w, moves).shut.Serving?
  }

  /** One entry is looked at, and started if it opted in. */
  lemma LookAtOne(w: World, rest: seq<Id>) returns (moves: seq<Move>, r: World)
    requires LooksAt(w, rest) && rest != []
    ensures LooksAt(r, rest[1..])
    ensures Handshake.Valid(w, moves) && Handshake.After(w, moves) == r
  {
    assert EntryOk(w, rest[0]);
    var a := Step(w, AutoNext);
    MoveKeepsInv(w, AutoNext);
    if rest[0] !in w.optedIn {
      MoveFirst(w, AutoNext, []);
      return [AutoNext] + [], a;
    }
    var more;
    more, r := CallIt(a, rest[0], rest[1..]);
    MoveFirst(w, AutoNext, more);
    moves := [AutoNext] + more;
  }

  /** The auto-start is inside the Run of an entry. */
  ghost predicate Inside(w: World, id: Id, rest: seq<Id>) {
    && WorldInv(w) && w.shut.Serving? && w.auto == Starting(id, rest) && id in w.entries
    && forall other :: other in rest ==> other in w.entries
  }

  lemma EnterIt(w: World, id: Id, rest: seq<Id>)
    requires Inside(w, id, rest) && w.entries[id].op.Free? && w.entries[id].looked == multiset{RunOp}
    ensures var m := AutoStep(Enter(RunOp));
      Allowed(w, m) && Inside(Step(w, m), id, rest) && Step(w, m).entries[id].op == Entered(RunOp)
  {
    MoveKeepsInv(w, AutoStep(Enter(RunOp)));
  }

  lemma StartIt(w: World, id: Id, rest: seq<Id>)
    requires Inside(w, id, rest) && w.entries[id].op == Entered(RunOp)
    ensures var m := AutoStep(Start(Down(""), 0));
      Allowed(w, m) && Inside(Step(w, m), id, rest) && Step(w, m).entries[id].op == Leaving(RunOp)
  {
    MoveKeepsInv(w, AutoStep(Start(Down(""), 0)));
  }

  lemma LeaveIt(w: World, id: Id, rest: seq<Id>)
    requires Inside(w, id, rest) && w.entries[id].op == Leaving(RunOp)
    ensures Allowed(w, AutoEnd) && LooksAt(Step(w, AutoEnd), rest)
  {
    MoveKeepsInv(w, AutoEnd);
  }

  /** The Run of one entry, from its lock to its end; here the command cannot be started. */
  lemma CallIt(w: World, id: Id, rest: seq<Id>) returns (moves: seq<Move>, r: World)
    requires Inside(w, id, rest) && w.entries[id].op.Free? && w.entries[id].looked == multiset{RunOp}
    ensures LooksAt(r, rest)
    ensures Handshake.Valid(w, moves) && Handshake.After(w, moves) == r
  {
    var enter, start := AutoStep(Enter(RunOp)), AutoStep(Start(Down(""), 0));
    EnterIt(w, id, rest);
    var a := Step(w, enter);
    StartIt(a, id, rest);
    var b := Step(a, start);
    LeaveIt(b, id, rest);
    r := Step(b, AutoEnd);
    MoveFirst(b, AutoEnd, []);
    MoveFirst(a, start, [AutoEnd] + []);
    MoveFirst(w, enter, [start] + ([AutoEnd] + []));
    moves := [enter] + ([start] + ([AutoEnd] + []));
  }

  lemma {:induction false} Concat(w: World, a: seq<Move>, b: seq<Move>)
    requires AllSound(w) && Handshake.Valid(w, a) && Handshake.Valid(Handshake.After(w, a), b)
    ensures Handshake.Valid(w, a + b) && Handshake.After(w, a + b) == Handshake.After(Handshake.After(w, a), b)
    decreases |a|
  {
    if a == [] {
      assert a + b == b;
    } else {
      ConsConcat(a, b);
      Concat(Step(w, a[0]), a[1..], b);
    }
  }

  lemma {:induction false} FinishFrom(w: World, rest: seq<Id>) returns (moves: seq<Move>)
    requires LooksAt(w, rest)
    ensures Ends(w, moves)
    decreases |rest|
  {
    if rest == [] {
      MoveFirst(w, AutoNext, []);
      moves := [AutoNext] + [];
    } else {
      var first, r := LookAtOne(w, rest);
      var more := FinishFrom(r, rest[1..]);
      Concat(w, first, more);
      moves := first + more;
    }
  }

  /** From a restored server the auto-start can come to its end while the server is serving. */
  lemma AutoStartCanFinish(w: World)
    requires Restored(w)
    ensures exists moves :: Ends(w, moves)
  {
    var order := Sorted(w.entries.Keys);
    assert forall id :: id in order <==> id in Elements(order);
    assert forall i, j :: 0 <= i < j < |order| && order[i] == order[j] ==> Less(order[i], order[j]);
    forall i, j | 0 <= i < j < |order| ensures order[i] != order[j] { LessIrreflexive(order[i]); }
    var begin := AutoBegin(order);
    MoveKeepsInv(w, begin);
    var moves := FinishFrom(Step(w, begin), order);
    MoveFirst(w, begin, moves);
    assert Ends(w, [begin] + moves);
  }
}
