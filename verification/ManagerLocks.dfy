/** The locks the manager's operations take, in order, along every path through them. */
module ManagerLocks {
  import opened Basics
  import opened LockOrder

  /** Runs from one held set back to the same one. */
  predicate Neutral(program: seq<Instr>, held: set<Lock>, depth: nat) {
    Effect(program, held, depth) == Some(held)
  }

  lemma {:induction false} EffectConcat(a: seq<Instr>, b: seq<Instr>, held: set<Lock>, depth: nat)
    requires Effect(a, held, depth).Some?
    ensures Effect(a + b, held, depth) == Effect(b, Effect(a, held, depth).value, depth)
  {
    if a == [] {
      assert a + b == b;
    } else {
      assert (a + b)[1..] == a[1..] + b;
      match a[0]
      case Acquire(l) => EffectConcat(a[1..], b, held + {l}, depth);
      case Release(l) => EffectConcat(a[1..], b, held - {l}, depth);
      case _ => EffectConcat(a[1..], b, held, depth);
    }
  }

  lemma Both(a: seq<Instr>, b: seq<Instr>, held: set<Lock>, depth: nat)
    requires Neutral(a, held, depth) && Neutral(b, held, depth)
    ensures Neutral(a + b, held, depth)
  {
    EffectConcat(a, b, held, depth);
  }

  /** A section under a lock. */
  function Under(l: Lock, inner: seq<Instr>): seq<Instr> { [Acquire(l)] + (inner + [Release(l)]) }

  lemma UnderNeutral(l: Lock, inner: seq<Instr>, held: set<Lock>, depth: nat)
    requires HoldsBelow(held, Rank(l)) && Rank(l) >= Floor(depth) && Neutral(inner, held + {l}, depth)
    ensures Neutral(Under(l, inner), held, depth)
  {
    EffectConcat(inner, [Release(l)], held + {l}, depth);
    assert (held + {l}) - {l} == held;
    assert Under(l, inner)[1..] == inner + [Release(l)];
    assert [Release(l)][1..] == [];
  }

  /** Looking an entry up, or any other brief use of the manager's own lock. */
  function Brief(times: nat): seq<Instr> {
    if times == 0 then [] else Brief(times - 1) + Under(ManagerMu, [])
  }

  lemma {:induction false} BriefNeutral(times: nat, held: set<Lock>, depth: nat)
    requires HoldsBelow(held, 3)
    ensures Neutral(Brief(times), held, depth)
  {
    if times > 0 {
      BriefNeutral(times - 1, held, depth);
      UnderNeutral(ManagerMu, [], held, depth);
      Both(Brief(times - 1), Under(ManagerMu, []), held, depth);
    }
  }

  function Watch(id: Id): seq<Instr> { Under(FieldMu(id), []) }

  /** The spawn uses the manager's lock for its groups, and starts a watcher if it starts a process. */
  function Spawn(id: Id, groups: nat, up: bool): seq<Instr> {
    Brief(groups) + if up then [Go(0, Watch(id))] else []
  }

  lemma SpawnNeutral(id: Id, groups: nat, up: bool, held: set<Lock>, depth: nat)
    requires HoldsBelow(held, 3)
    ensures Neutral(Spawn(id, groups, up), held, depth)
  {
    BriefNeutral(groups, held, depth);
    UnderNeutral(FieldMu(id), [], {}, 0);
    var start := if up then [Go(0, Watch(id))] else [];
    assert up ==> start[1..] == [];
    Both(Brief(groups), start, held, depth);
  }

  function Joins(below: nat, times: nat): seq<Instr> {
    if times == 0 then [] else Joins(below, times - 1) + [Join(below)]
  }

  lemma {:induction false} JoinsNeutral(below: nat, times: nat, held: set<Lock>, depth: nat)
    requires 0 < below <= depth && HoldsBelow(held, Floor(below - 1))
    ensures Neutral(Joins(below, times), held, depth)
  {
    if times > 0 {
      JoinsNeutral(below, times - 1, held, depth);
      assert [Join(below)][1..] == [];
      Both(Joins(below, times - 1), [Join(below)], held, depth);
    }
  }

  /** A stop reads the fields; of something running it then waits for the watcher, up to twice, and writes them. */
  function StopChild(id: Id, waits: nat): seq<Instr> {
    Under(FieldMu(id), []) + (if waits == 0 then [] else Joins(1, waits) + Under(FieldMu(id), []))
  }

  lemma StopChildNeutral(id: Id, waits: nat)
    ensures Neutral(StopChild(id, waits), {OpMu(id)}, 1)
  {
    var held: set<Lock> := {OpMu(id)};
    UnderNeutral(FieldMu(id), [], held, 1);
    JoinsNeutral(1, waits, held, 1);
    Both(Joins(1, waits), Under(FieldMu(id), []), held, 1);
    Both(Under(FieldMu(id), []), if waits == 0 then [] else Joins(1, waits) + Under(FieldMu(id), []), held, 1);
  }

  function RunProgram(id: Id, idle: bool, groups: nat, up: bool): seq<Instr> {
    Brief(1) + Under(OpMu(id), Under(FieldMu(id), if idle then Spawn(id, groups, up) else []))
  }

  /** Run is also called by the auto-start, which holds its lock meanwhile. */
  lemma RunNeutral(id: Id, idle: bool, groups: nat, up: bool, held: set<Lock>, depth: nat)
    requires depth >= 1 && HoldsBelow(held, 1)
    ensures Neutral(RunProgram(id, idle, groups, up), held, depth)
  {
    var inner := if idle then Spawn(id, groups, up) else [];
    SpawnNeutral(id, groups, up, held + {OpMu(id)} + {FieldMu(id)}, depth);
    UnderNeutral(FieldMu(id), inner, held + {OpMu(id)}, depth);
    UnderNeutral(OpMu(id), Under(FieldMu(id), inner), held, depth);
    BriefNeutral(1, held, depth);
    Both(Brief(1), Under(OpMu(id), Under(FieldMu(id), inner)), held, depth);
  }

  /** Reading one entry after the other. */
  function ReadAll(ids: seq<Id>): seq<Instr> {
    if ids == [] then [] else ReadAll(ids[..|ids| - 1]) + Under(FieldMu(ids[|ids| - 1]), [])
  }

  lemma {:induction false} ReadAllNeutral(ids: seq<Id>, held: set<Lock>, depth: nat)
    requires HoldsBelow(held, 2)
    ensures Neutral(ReadAll(ids), held, depth)
  {
    if ids != [] {
      var n := |ids| - 1;
      ReadAllNeutral(ids[..n], held, depth);
      UnderNeutral(FieldMu(ids[n]), [], held, depth);
      Both(ReadAll(ids[..n]), Under(FieldMu(ids[n]), []), held, depth);
    }
  }

  /** One entry as StopChildren finds it: down, or running and to be stopped by a thread of its own. */
  datatype Child = Child(id: Id, running: bool, waits: nat)

  function Survey(children: seq<Child>): seq<Instr> {
    if children == [] then []
    else
      var c := children[|children| - 1];
      Survey(children[..|children| - 1]) + (Under(FieldMu(c.id), []) +
        if c.running then [Go(1, Under(OpMu(c.id), StopChild(c.id, c.waits)))] else [])
  }

  lemma {:induction false} SurveyNeutral(children: seq<Child>)
    ensures Neutral(Survey(children), {AutoStartMu}, 2)
  {
    if children != [] {
      var n := |children| - 1;
      var c := children[n];
      var held: set<Lock> := {AutoStartMu};
      SurveyNeutral(children[..n]);
      UnderNeutral(FieldMu(c.id), [], held, 2);
      StopChildNeutral(c.id, c.waits);
      assert {} + {OpMu(c.id)} == {OpMu(c.id)};
      UnderNeutral(OpMu(c.id), StopChild(c.id, c.waits), {}, 1);
      var start := if c.running then [Go(1, Under(OpMu(c.id), StopChild(c.id, c.waits)))] else [];
      assert c.running ==> start[1..] == [];
      Both(Under(FieldMu(c.id), []), start, held, 2);
      Both(Survey(children[..n]), Under(FieldMu(c.id), []) + start, held, 2);
    }
  }

  /** One entry the auto-start runs. */
  datatype Launch = Launch(id: Id, idle: bool, groups: nat, up: bool)

  function Launches(launches: seq<Launch>): seq<Instr> {
    if launches == [] then []
    else
      var l := launches[|launches| - 1];
      Launches(launches[..|launches| - 1]) + RunProgram(l.id, l.idle, l.groups, l.up)
  }

  lemma {:induction false} LaunchesNeutral(launches: seq<Launch>)
    ensures Neutral(Launches(launches), {AutoStartMu}, 2)
  {
    if launches != [] {
      var n := |launches| - 1;
      var l := launches[n];
      LaunchesNeutral(launches[..n]);
      RunNeutral(l.id, l.idle, l.groups, l.up, {AutoStartMu}, 2);
      Both(Launches(launches[..n]), RunProgram(l.id, l.idle, l.groups, l.up), {AutoStartMu}, 2);
    }
  }

  /**
   Every operation, with what decides its path: whether the entry is idle, how often the spawn needs the manager's lock
   and whether a process comes of it, how often a stop waits, what a listing holds.
   */
  datatype Operation =
    | Register(id: Id, start: bool, groups: nat, up: bool)
    | Update(id: Id)
    | Run(id: Id, idle: bool, groups: nat, up: bool)
    | Restart(id: Id, waits: nat, groups: nat, up: bool)
    | Stop(id: Id, waits: nat)
    | Delete(id: Id, waits: nat)
    | List(ids: seq<Id>)
    | StopChildren(children: seq<Child>)
    | StopCollectors(ids: seq<Id>)
    | CloseServerJob
    | AutoStart(ids: seq<Id>, launches: seq<Launch>)

  function Depth(op: Operation): nat {
    if op.StopChildren? || op.StopCollectors? || op.AutoStart? then 2 else 1
  }

  function Program(op: Operation): seq<Instr> {
    match op
    case Register(id, start, groups, up) =>
      Brief(1) + (Under(FieldMu(id), []) + Under(FieldMu(id), if start then Spawn(id, groups, up) else []))
    case Update(id) => Brief(1) + (Under(FieldMu(id), []) + Under(FieldMu(id), []))
    case Run(id, idle, groups, up) => RunProgram(id, idle, groups, up)
    case Restart(id, waits, groups, up) =>
      Brief(1) + Under(OpMu(id), StopChild(id, waits) + Under(FieldMu(id), Spawn(id, groups, up)))
    case Stop(id, waits) => Brief(1) + (Under(OpMu(id), StopChild(id, waits)) + Under(FieldMu(id), []))
    case Delete(id, waits) => Brief(1) + Under(OpMu(id), StopChild(id, waits) + Brief(1))
    case List(ids) => Brief(1) + ReadAll(ids)
    case StopChildren(children) => Under(AutoStartMu, Brief(1) + (Survey(children) + Joins(2, |children|)))
    case StopCollectors(ids) => Under(AutoStartMu, Brief(1) + ReadAll(ids))
    case CloseServerJob => Brief(1)
    case AutoStart(ids, launches) => Under(AutoStartMu, Brief(1) + (ReadAll(ids) + Launches(launches)))
  }

  lemma EntryOperations(op: Operation)
    requires op.Restart? || op.Stop? || op.Delete?
    ensures Disciplined(Program(op), {}, 1)
  {
    var id := op.id;
    var held: set<Lock> := {OpMu(id)};
    assert {} + {OpMu(id)} == held;
    StopChildNeutral(id, op.waits);
    BriefNeutral(1, {}, 1);
    BriefNeutral(1, held, 1);
    match op
    case Restart(_, waits, groups, up) =>
      SpawnNeutral(id, groups, up, held + {FieldMu(id)}, 1);
      UnderNeutral(FieldMu(id), Spawn(id, groups, up), held, 1);
      Both(StopChild(id, waits), Under(FieldMu(id), Spawn(id, groups, up)), held, 1);
      UnderNeutral(OpMu(id), StopChild(id, waits) + Under(FieldMu(id), Spawn(id, groups, up)), {}, 1);
      Both(Brief(1), Under(OpMu(id), StopChild(id, waits) + Under(FieldMu(id), Spawn(id, groups, up))), {}, 1);
    case Stop(_, waits) =>
      UnderNeutral(OpMu(id), StopChild(id, waits), {}, 1);
      UnderNeutral(FieldMu(id), [], {}, 1);
      Both(Under(OpMu(id), StopChild(id, waits)), Under(FieldMu(id), []), {}, 1);
      Both(Brief(1), Under(OpMu(id), StopChild(id, waits)) + Under(FieldMu(id), []), {}, 1);
    case Delete(_, waits) =>
      Both(StopChild(id, waits), Brief(1), held, 1);
      UnderNeutral(OpMu(id), StopChild(id, waits) + Brief(1), {}, 1);
      Both(Brief(1), Under(OpMu(id), StopChild(id, waits) + Brief(1)), {}, 1);
  }

  lemma ServerOperations(op: Operation)
    requires op.StopChildren? || op.StopCollectors? || op.AutoStart?
    ensures Disciplined(Program(op), {}, 2)
  {
    var held: set<Lock> := {AutoStartMu};
    assert {} + {AutoStartMu} == held;
    BriefNeutral(1, held, 2);
    match op
    case StopChildren(children) =>
      SurveyNeutral(children);
      JoinsNeutral(2, |children|, held, 2);
      Both(Survey(children), Joins(2, |children|), held, 2);
      Both(Brief(1), Survey(children) + Joins(2, |children|), held, 2);
      UnderNeutral(AutoStartMu, Brief(1) + (Survey(children) + Joins(2, |children|)), {}, 2);
    case StopCollectors(ids) =>
      ReadAllNeutral(ids, held, 2);
      Both(Brief(1), ReadAll(ids), held, 2);
      UnderNeutral(AutoStartMu, Brief(1) + ReadAll(ids), {}, 2);
    case AutoStart(ids, launches) =>
      ReadAllNeutral(ids, held, 2);
      LaunchesNeutral(launches);
      Both(ReadAll(ids), Launches(launches), held, 2);
      Both(Brief(1), ReadAll(ids) + Launches(launches), held, 2);
      UnderNeutral(AutoStartMu, Brief(1) + (ReadAll(ids) + Launches(launches)), {}, 2);
  }

  /** Every operation keeps the order, whatever path it takes. */
  lemma OperationsKeepOrder(op: Operation)
    ensures Disciplined(Program(op), {}, Depth(op))
  {
    BriefNeutral(1, {}, 1);
    match op
    case Register(id, start, groups, up) =>
      var inner := if start then Spawn(id, groups, up) else [];
      SpawnNeutral(id, groups, up, {} + {FieldMu(id)}, 1);
      UnderNeutral(FieldMu(id), inner, {}, 1);
      UnderNeutral(FieldMu(id), [], {}, 1);
      Both(Under(FieldMu(id), []), Under(FieldMu(id), inner), {}, 1);
      Both(Brief(1), Under(FieldMu(id), []) + Under(FieldMu(id), inner), {}, 1);
    case Update(id) =>
      UnderNeutral(FieldMu(id), [], {}, 1);
      Both(Under(FieldMu(id), []), Under(FieldMu(id), []), {}, 1);
      Both(Brief(1), Under(FieldMu(id), []) + Under(FieldMu(id), []), {}, 1);
    case Run(id, idle, groups, up) => RunNeutral(id, idle, groups, up, {}, 1);
    case List(ids) =>
      ReadAllNeutral(ids, {}, 1);
      Both(Brief(1), ReadAll(ids), {}, 1);
    case CloseServerJob =>
    case StopChildren(_) => ServerOperations(op);
    case StopCollectors(_) => ServerOperations(op);
    case AutoStart(_, _) => ServerOperations(op);
    case _ => EntryOperations(op);
  }

  /** What may happen in the manager: an operation arrives, or a thread goes on. */
  datatype Event = Arrives(op: Operation) | Proceeds(thread: nat, pick: nat)

  function Plain(e: Event): LockOrder.Event {
    match e
    case Arrives(op) => Begin(Depth(op), Program(op))
    case Proceeds(thread, pick) => Take(thread, pick)
  }

  function PlainAll(events: seq<Event>): seq<LockOrder.Event> {
    seq(|events|, i requires 0 <= i < |events| => Plain(events[i]))
  }

  /**
   No mix of operations, arriving at any time, ever comes to a standstill; and from any moment on at which no more
   arrive, every schedule of the threads there are ends, within the work they have left, with all of them done.
   */
  lemma ManagerNeverStuck(events: seq<Event>, more: seq<LockOrder.Event>)
    requires Happens([], PlainAll(events))
    requires Happens(After([], PlainAll(events)), more) && OnlySteps(more)
    ensures var s := After([], PlainAll(events));
      && (AllFinished(s) || exists i :: 0 <= i < |s| && CanStep(s, i))
      && |more| <= TotalWork(s) && (Stuck(After(s, more)) <==> AllFinished(After(s, more)))
  {
    NoDeadlock(PlainAll(events));
    RunKeepsOrdered([], PlainAll(events));
    EveryScheduleEnds(After([], PlainAll(events)), more);
  }

  /** An operation may arrive in any state. */
  lemma AnyOperationMayArrive(s: State, op: Operation)
    ensures Possible(s, Plain(Arrives(op)))
  {
    OperationsKeepOrder(op);
  }
}
