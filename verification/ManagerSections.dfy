/** What the manager's operations do inside their locks: where processes are started and waited for, and how often. */
module ManagerSections {
  import opened Basics
  import opened LockOrder
  import opened ManagerLocks

  function HeldAfter(i: Instr, held: set<Lock>): set<Lock> {
    match i
    case Acquire(l) => held + {l}
    case Release(l) => held - {l}
    case _ => held
  }

  function HeldThrough(program: seq<Instr>, held: set<Lock>): set<Lock> {
    if program == [] then held else HeldThrough(program[1..], HeldAfter(program[0], held))
  }

  type Rule = (Instr, set<Lock>) -> bool

  /** Every instruction of a program, and of the threads it starts, is carried out with locks that the rule allows. */
  predicate Everywhere(rule: Rule, program: seq<Instr>, held: set<Lock>)
    decreases program
  {
    program == [] ||
    (&& rule(program[0], held)
     && (match program[0]
         case Go(_, body) => Everywhere(rule, body, {})
         case _ => true)
     && Everywhere(rule, program[1..], HeldAfter(program[0], held)))
  }

  lemma {:induction false} EverywhereConcat(rule: Rule, a: seq<Instr>, b: seq<Instr>, held: set<Lock>)
    ensures Everywhere(rule, a + b, held) <==>
            Everywhere(rule, a, held) && Everywhere(rule, b, HeldThrough(a, held))
  {
    if a == [] {
      assert a + b == b;
    } else {
      ConsConcat(a, b);
      EverywhereConcat(rule, a[1..], b, HeldAfter(a[0], held));
    }
  }

  lemma {:induction false} EffectIsHeld(program: seq<Instr>, held: set<Lock>, depth: nat)
    requires Effect(program, held, depth).Some?
    ensures HeldThrough(program, held) == Effect(program, held, depth).value
  {
    if program != [] { EffectIsHeld(program[1..], HeldAfter(program[0], held), depth); }
  }

  /** Two parts that each give back what they take. */
  lemma Parts(rule: Rule, a: seq<Instr>, b: seq<Instr>, held: set<Lock>, depth: nat)
    requires Neutral(a, held, depth) && Everywhere(rule, a, held) && Everywhere(rule, b, held)
    ensures Everywhere(rule, a + b, held)
  {
    EffectIsHeld(a, held, depth);
    EverywhereConcat(rule, a, b, held);
  }

  /** A rule that says nothing of the taking and giving back of locks. */
  ghost predicate Lenient(rule: Rule) {
    forall l: Lock, held: set<Lock> :: rule(Acquire(l), held) && rule(Release(l), held)
  }

  lemma Section(rule: Rule, l: Lock, inner: seq<Instr>, held: set<Lock>, depth: nat)
    requires Lenient(rule) && Neutral(inner, held + {l}, depth) && Everywhere(rule, inner, held + {l})
    ensures Everywhere(rule, Under(l, inner), held)
  {
    assert [Release(l)][1..] == [];
    assert Everywhere(rule, [Release(l)], held + {l});
    Parts(rule, inner, [Release(l)], held + {l}, depth);
    assert Under(l, inner)[1..] == inner + [Release(l)];
  }

  // The rule.

  /**
   A watcher is started, with its process, only while the field lock of its entry is held, and, but for the first start
   of a registration, the operation lock, too. A watcher is waited for under operation locks only, so that it can take
   the field lock. The threads that stop an entry each are started and waited for under the auto-start lock alone.
   */
  predicate Guarded(operation: bool, i: Instr, held: set<Lock>) {
    match i
    case Go(depth, body) =>
      if depth == 0 then
        && body != [] && body[0].Acquire? && body[0].l.FieldMu? && body[0].l in held
        && (operation ==> OpMu(body[0].l.id) in held)
      else held == {AutoStartMu}
    case Join(below) =>
      if below == 1 then held != {} && forall l :: l in held ==> l.OpMu? else held == {AutoStartMu}
    case _ => true
  }

  function Rules(operation: bool): Rule { (i, held) => Guarded(operation, i, held) }

  lemma RulesLenient(g: bool)
    ensures Lenient(Rules(g))
  {
  }

  lemma BareSection(g: bool, l: Lock, held: set<Lock>, depth: nat)
    ensures Everywhere(Rules(g), Under(l, []), held)
  {
    RulesLenient(g);
    Section(Rules(g), l, [], held, depth);
  }

  lemma {:induction false} BriefGuarded(g: bool, times: nat, held: set<Lock>, depth: nat)
    requires HoldsBelow(held, 3)
    ensures Everywhere(Rules(g), Brief(times), held)
  {
    if times > 0 {
      BriefGuarded(g, times - 1, held, depth);
      BriefNeutral(times - 1, held, depth);
      BareSection(g, ManagerMu, held, depth);
      Parts(Rules(g), Brief(times - 1), Under(ManagerMu, []), held, depth);
    }
  }

  lemma SpawnGuarded(g: bool, id: Id, groups: nat, up: bool, held: set<Lock>, depth: nat)
    requires HoldsBelow(held, 3) && FieldMu(id) in held && (g ==> OpMu(id) in held)
    ensures Everywhere(Rules(g), Spawn(id, groups, up), held)
  {
    BriefGuarded(g, groups, held, depth);
    BriefNeutral(groups, held, depth);
    BareSection(g, FieldMu(id), {}, 0);
    var start := if up then [Go(0, Watch(id))] else [];
    assert up ==> start[1..] == [];
    Parts(Rules(g), Brief(groups), start, held, depth);
  }

  lemma {:induction false} JoinsGuarded(g: bool, below: nat, times: nat, held: set<Lock>, depth: nat)
    requires 0 < below <= depth && HoldsBelow(held, Floor(below - 1)) && Guarded(g, Join(below), held)
    ensures Everywhere(Rules(g), Joins(below, times), held)
  {
    if times > 0 {
      JoinsGuarded(g, below, times - 1, held, depth);
      JoinsNeutral(below, times - 1, held, depth);
      assert [Join(below)][1..] == [];
      Parts(Rules(g), Joins(below, times - 1), [Join(below)], held, depth);
    }
  }

  lemma StopChildGuarded(g: bool, id: Id, waits: nat)
    ensures Everywhere(Rules(g), StopChild(id, waits), {OpMu(id)})
  {
    var held: set<Lock> := {OpMu(id)};
    BareSection(g, FieldMu(id), held, 1);
    UnderNeutral(FieldMu(id), [], held, 1);
    JoinsGuarded(g, 1, waits, held, 1);
    JoinsNeutral(1, waits, held, 1);
    Parts(Rules(g), Joins(1, waits), Under(FieldMu(id), []), held, 1);
    Parts(Rules(g), Under(FieldMu(id), []),
          if waits == 0 then [] else Joins(1, waits) + Under(FieldMu(id), []), held, 1);
  }

  lemma RunGuarded(g: bool, id: Id, idle: bool, groups: nat, up: bool, held: set<Lock>, depth: nat)
    requires depth >= 1 && HoldsBelow(held, 1)
    ensures Everywhere(Rules(g), RunProgram(id, idle, groups, up), held)
  {
    var inner := if idle then Spawn(id, groups, up) else [];
    var op := held + {OpMu(id)};
    RulesLenient(g);
    SpawnGuarded(g, id, groups, up, op + {FieldMu(id)}, depth);
    SpawnNeutral(id, groups, up, op + {FieldMu(id)}, depth);
    Section(Rules(g), FieldMu(id), inner, op, depth);
    UnderNeutral(FieldMu(id), inner, op, depth);
    Section(Rules(g), OpMu(id), Under(FieldMu(id), inner), held, depth);
    BriefGuarded(g, 1, held, depth);
    BriefNeutral(1, held, depth);
    Parts(Rules(g), Brief(1), Under(OpMu(id), Under(FieldMu(id), inner)), held, depth);
  }

  lemma {:induction false} ReadAllGuarded(g: bool, ids: seq<Id>, held: set<Lock>, depth: nat)
    requires HoldsBelow(held, 2)
    ensures Everywhere(Rules(g), ReadAll(ids), held)
  {
    if ids != [] {
      var n := |ids| - 1;
      ReadAllGuarded(g, ids[..n], held, depth);
      ReadAllNeutral(ids[..n], held, depth);
      BareSection(g, FieldMu(ids[n]), held, depth);
      Parts(Rules(g), ReadAll(ids[..n]), Under(FieldMu(ids[n]), []), held, depth);
    }
  }

  lemma ChildGuarded(g: bool, c: Child)
    ensures Everywhere(Rules(g), Under(OpMu(c.id), StopChild(c.id, c.waits)), {})
  {
    RulesLenient(g);
    assert {} + {OpMu(c.id)} == {OpMu(c.id)};
    StopChildGuarded(g, c.id, c.waits);
    StopChildNeutral(c.id, c.waits);
    Section(Rules(g), OpMu(c.id), StopChild(c.id, c.waits), {}, 1);
  }

  lemma {:induction false} SurveyGuarded(g: bool, children: seq<Child>)
    ensures Everywhere(Rules(g), Survey(children), {AutoStartMu})
  {
    if children != [] {
      var n := |children| - 1;
      var c := children[n];
      var held: set<Lock> := {AutoStartMu};
      SurveyGuarded(g, children[..n]);
      SurveyNeutral(children[..n]);
      BareSection(g, FieldMu(c.id), held, 2);
      UnderNeutral(FieldMu(c.id), [], held, 2);
      ChildGuarded(g, c);
      var start := if c.running then [Go(1, Under(OpMu(c.id), StopChild(c.id, c.waits)))] else [];
      assert c.running ==> start[1..] == [];
      Parts(Rules(g), Under(FieldMu(c.id), []), start, held, 2);
      Parts(Rules(g), Survey(children[..n]), Under(FieldMu(c.id), []) + start, held, 2);
    }
  }

  lemma {:induction false} LaunchesGuarded(g: bool, launches: seq<Launch>)
    ensures Everywhere(Rules(g), Launches(launches), {AutoStartMu})
  {
    if launches != [] {
      var n := |launches| - 1;
      var l := launches[n];
      LaunchesGuarded(g, launches[..n]);
      LaunchesNeutral(launches[..n]);
      RunGuarded(g, l.id, l.idle, l.groups, l.up, {AutoStartMu}, 2);
      Parts(Rules(g), Launches(launches[..n]), RunProgram(l.id, l.idle, l.groups, l.up), {AutoStartMu}, 2);
    }
  }

  lemma LookedUp(g: bool, rest: seq<Instr>)
    requires Everywhere(Rules(g), rest, {})
    ensures Everywhere(Rules(g), Brief(1) + rest, {})
  {
    BriefGuarded(g, 1, {}, 1);
    BriefNeutral(1, {}, 1);
    Parts(Rules(g), Brief(1), rest, {}, 1);
  }

  lemma RestartGuarded(g: bool, op: Operation)
    requires op.Restart?
    ensures Everywhere(Rules(g), Program(op), {})
  {
    var id := op.id;
    var held: set<Lock> := {OpMu(id)};
    var spawn := Spawn(id, op.groups, op.up);
    assert {} + {OpMu(id)} == held;
    RulesLenient(g);
    StopChildGuarded(g, id, op.waits);
    StopChildNeutral(id, op.waits);
    SpawnGuarded(g, id, op.groups, op.up, held + {FieldMu(id)}, 1);
    SpawnNeutral(id, op.groups, op.up, held + {FieldMu(id)}, 1);
    Section(Rules(g), FieldMu(id), spawn, held, 1);
    UnderNeutral(FieldMu(id), spawn, held, 1);
    Parts(Rules(g), StopChild(id, op.waits), Under(FieldMu(id), spawn), held, 1);
    Both(StopChild(id, op.waits), Under(FieldMu(id), spawn), held, 1);
    Section(Rules(g), OpMu(id), StopChild(id, op.waits) + Under(FieldMu(id), spawn), {}, 1);
    LookedUp(g, Under(OpMu(id), StopChild(id, op.waits) + Under(FieldMu(id), spawn)));
  }

  lemma StopGuarded(g: bool, op: Operation)
    requires op.Stop? || op.Delete?
    ensures Everywhere(Rules(g), Program(op), {})
  {
    var id := op.id;
    var held: set<Lock> := {OpMu(id)};
    assert {} + {OpMu(id)} == held;
    RulesLenient(g);
    StopChildGuarded(g, id, op.waits);
    StopChildNeutral(id, op.waits);
    if op.Stop? {
      Section(Rules(g), OpMu(id), StopChild(id, op.waits), {}, 1);
      UnderNeutral(OpMu(id), StopChild(id, op.waits), {}, 1);
      BareSection(g, FieldMu(id), {}, 1);
      Parts(Rules(g), Under(OpMu(id), StopChild(id, op.waits)), Under(FieldMu(id), []), {}, 1);
      LookedUp(g, Under(OpMu(id), StopChild(id, op.waits)) + Under(FieldMu(id), []));
    } else {
      BriefGuarded(g, 1, held, 1);
      BriefNeutral(1, held, 1);
      Parts(Rules(g), StopChild(id, op.waits), Brief(1), held, 1);
      Both(StopChild(id, op.waits), Brief(1), held, 1);
      Section(Rules(g), OpMu(id), StopChild(id, op.waits) + Brief(1), {}, 1);
      LookedUp(g, Under(OpMu(id), StopChild(id, op.waits) + Brief(1)));
    }
  }

  lemma TwoSections(g: bool, id: Id, inner: seq<Instr>)
    requires Neutral(inner, {FieldMu(id)}, 1) && Everywhere(Rules(g), inner, {FieldMu(id)})
    ensures Everywhere(Rules(g), Brief(1) + (Under(FieldMu(id), []) + Under(FieldMu(id), inner)), {})
  {
    RulesLenient(g);
    assert {} + {FieldMu(id)} == {FieldMu(id)};
    BareSection(g, FieldMu(id), {}, 1);
    UnderNeutral(FieldMu(id), [], {}, 1);
    Section(Rules(g), FieldMu(id), inner, {}, 1);
    Parts(Rules(g), Under(FieldMu(id), []), Under(FieldMu(id), inner), {}, 1);
    LookedUp(g, Under(FieldMu(id), []) + Under(FieldMu(id), inner));
  }

  lemma ServerGuarded(g: bool, op: Operation)
    requires op.StopChildren? || op.StopCollectors? || op.AutoStart?
    ensures Everywhere(Rules(g), Program(op), {})
  {
    var held: set<Lock> := {AutoStartMu};
    assert {} + {AutoStartMu} == held;
    RulesLenient(g);
    BriefGuarded(g, 1, held, 2);
    BriefNeutral(1, held, 2);
    var rest := match op
      case StopChildren(children) => Survey(children) + Joins(2, |children|)
      case StopCollectors(ids) => ReadAll(ids)
      case AutoStart(ids, launches) => ReadAll(ids) + Launches(launches);
    ServerPart(g, op);
    Parts(Rules(g), Brief(1), rest, held, 2);
    Both(Brief(1), rest, held, 2);
    Section(Rules(g), AutoStartMu, Brief(1) + rest, {}, 2);
  }

  lemma ServerPart(g: bool, op: Operation)
    requires op.StopChildren? || op.StopCollectors? || op.AutoStart?
    ensures var rest := match op
        case StopChildren(children) => Survey(children) + Joins(2, |children|)
        case StopCollectors(ids) => ReadAll(ids)
        case AutoStart(ids, launches) => ReadAll(ids) + Launches(launches);
      Everywhere(Rules(g), rest, {AutoStartMu}) && Neutral(rest, {AutoStartMu}, 2)
  {
    var held: set<Lock> := {AutoStartMu};
    match op
    case StopChildren(children) =>
      SurveyGuarded(g, children);
      SurveyNeutral(children);
      JoinsGuarded(g, 2, |children|, held, 2);
      JoinsNeutral(2, |children|, held, 2);
      Parts(Rules(g), Survey(children), Joins(2, |children|), held, 2);
      Both(Survey(children), Joins(2, |children|), held, 2);
    case StopCollectors(ids) =>
      ReadAllGuarded(g, ids, held, 2);
      ReadAllNeutral(ids, held, 2);
    case AutoStart(ids, launches) =>
      ReadAllGuarded(g, ids, held, 2);
      ReadAllNeutral(ids, held, 2);
      LaunchesGuarded(g, launches);
      LaunchesNeutral(launches);
      Parts(Rules(g), ReadAll(ids), Launches(launches), held, 2);
      Both(ReadAll(ids), Launches(launches), held, 2);
  }

  /** Every operation, on every path, starts and waits for what it does in the right sections. */
  lemma OperationsGuard(op: Operation)
    ensures Everywhere(Rules(!op.Register?), Program(op), {})
  {
    var g := !op.Register?;
    match op
    case Register(id, start, groups, up) =>
      SpawnGuarded(g, id, groups, up, {FieldMu(id)}, 1);
      SpawnNeutral(id, groups, up, {FieldMu(id)}, 1);
      TwoSections(g, id, if start then Spawn(id, groups, up) else []);
    case Update(id) => TwoSections(g, id, []);
    case Run(id, idle, groups, up) => RunGuarded(g, id, idle, groups, up, {}, 1);
    case Restart(_, _, _, _) => RestartGuarded(g, op);
    case Stop(_, _) => StopGuarded(g, op);
    case Delete(_, _) => StopGuarded(g, op);
    case List(ids) =>
      ReadAllGuarded(g, ids, {}, 1);
      LookedUp(g, ReadAll(ids));
    case CloseServerJob => BriefGuarded(g, 1, {}, 1);
    case _ => ServerGuarded(g, op);
  }

  // How often.

  /** How many instructions of a program, and of the threads it starts, are of a kind. */
  function Count(kind: Instr -> bool, program: seq<Instr>): nat
    decreases program
  {
    if program == [] then 0
    else
      (if kind(program[0]) then 1 else 0)
      + (match program[0]
         case Go(_, body) => Count(kind, body)
         case _ => 0)
      + Count(kind, program[1..])
  }

  lemma {:induction false} CountConcat(kind: Instr -> bool, a: seq<Instr>, b: seq<Instr>)
    ensures Count(kind, a + b) == Count(kind, a) + Count(kind, b)
  {
    if a == [] {
      assert a + b == b;
    } else {
      ConsConcat(a, b);
      CountConcat(kind, a[1..], b);
    }
  }

  lemma CountUnder(kind: Instr -> bool, l: Lock, inner: seq<Instr>)
    ensures Count(kind, Under(l, inner))
         == Count(kind, inner) + (if kind(Acquire(l)) then 1 else 0) + (if kind(Release(l)) then 1 else 0)
  {
    CountConcat(kind, inner, [Release(l)]);
    assert Under(l, inner)[1..] == inner + [Release(l)] && [Release(l)][1..] == [];
  }

  type Kind = Instr -> bool

  /** A kind to which the brief sections do not belong. */
  ghost predicate Coarse(kind: Kind) {
    && !kind(Acquire(ManagerMu)) && !kind(Release(ManagerMu))
    && forall id: Id :: !kind(Acquire(FieldMu(id))) && !kind(Release(FieldMu(id)))
  }

  function One(b: bool): nat { if b then 1 else 0 }

  function Starts(kind: Kind, id: Id, up: bool): nat { One(up && kind(Go(0, Watch(id)))) }

  function Holds(kind: Kind, l: Lock): nat { One(kind(Acquire(l))) + One(kind(Release(l))) }

  function Times(kind: Kind, i: Instr, n: nat): nat { if kind(i) then n else 0 }

  lemma {:induction false} CountBrief(kind: Kind, times: nat)
    requires Coarse(kind)
    ensures Count(kind, Brief(times)) == 0
  {
    if times > 0 {
      CountBrief(kind, times - 1);
      CountUnder(kind, ManagerMu, []);
      CountConcat(kind, Brief(times - 1), Under(ManagerMu, []));
    }
  }

  lemma CountSpawn(kind: Kind, id: Id, groups: nat, up: bool)
    requires Coarse(kind)
    ensures Count(kind, Spawn(id, groups, up)) == Starts(kind, id, up)
  {
    var start := if up then [Go(0, Watch(id))] else [];
    CountBrief(kind, groups);
    CountUnder(kind, FieldMu(id), []);
    assert up ==> start[1..] == [];
    CountConcat(kind, Brief(groups), start);
  }

  lemma {:induction false} CountJoins(kind: Kind, below: nat, times: nat)
    ensures Count(kind, Joins(below, times)) == Times(kind, Join(below), times)
  {
    if times > 0 {
      CountJoins(kind, below, times - 1);
      assert [Join(below)][1..] == [];
      CountConcat(kind, Joins(below, times - 1), [Join(below)]);
    }
  }

  lemma CountStopChild(kind: Kind, id: Id, waits: nat)
    requires Coarse(kind)
    ensures Count(kind, StopChild(id, waits)) == Times(kind, Join(1), waits)
  {
    CountUnder(kind, FieldMu(id), []);
    CountJoins(kind, 1, waits);
    CountConcat(kind, Joins(1, waits), Under(FieldMu(id), []));
    CountConcat(kind, Under(FieldMu(id), []), if waits == 0 then [] else Joins(1, waits) + Under(FieldMu(id), []));
  }

  lemma CountRun(kind: Kind, id: Id, idle: bool, groups: nat, up: bool)
    requires Coarse(kind)
    ensures Count(kind, RunProgram(id, idle, groups, up)) == Holds(kind, OpMu(id)) + Starts(kind, id, idle && up)
  {
    var inner := if idle then Spawn(id, groups, up) else [];
    CountSpawn(kind, id, groups, up);
    CountUnder(kind, FieldMu(id), inner);
    CountUnder(kind, OpMu(id), Under(FieldMu(id), inner));
    CountBrief(kind, 1);
    CountConcat(kind, Brief(1), Under(OpMu(id), Under(FieldMu(id), inner)));
  }

  lemma {:induction false} CountReadAll(kind: Kind, ids: seq<Id>)
    requires Coarse(kind)
    ensures Count(kind, ReadAll(ids)) == 0
  {
    if ids != [] {
      var n := |ids| - 1;
      CountReadAll(kind, ids[..n]);
      CountUnder(kind, FieldMu(ids[n]), []);
      CountConcat(kind, ReadAll(ids[..n]), Under(FieldMu(ids[n]), []));
    }
  }

  /** The thread that stops one entry. */
  function Stopper(c: Child): Instr { Go(1, Under(OpMu(c.id), StopChild(c.id, c.waits))) }

  function OfChildren(kind: Kind, children: seq<Child>): nat {
    if children == [] then 0
    else
      var c := children[|children| - 1];
      OfChildren(kind, children[..|children| - 1])
      + if c.running then One(kind(Stopper(c))) + Holds(kind, OpMu(c.id)) + Times(kind, Join(1), c.waits) else 0
  }

  lemma {:induction false} CountSurvey(kind: Kind, children: seq<Child>)
    requires Coarse(kind)
    ensures Count(kind, Survey(children)) == OfChildren(kind, children)
  {
    if children != [] {
      var n := |children| - 1;
      var c := children[n];
      var start := if c.running then [Stopper(c)] else [];
      CountSurvey(kind, children[..n]);
      CountUnder(kind, FieldMu(c.id), []);
      CountStopChild(kind, c.id, c.waits);
      CountUnder(kind, OpMu(c.id), StopChild(c.id, c.waits));
      assert c.running ==> start[1..] == [];
      CountConcat(kind, Under(FieldMu(c.id), []), start);
      CountConcat(kind, Survey(children[..n]), Under(FieldMu(c.id), []) + start);
    }
  }

  function OfLaunches(kind: Kind, launches: seq<Launch>): nat {
    if launches == [] then 0
    else
      var l := launches[|launches| - 1];
      OfLaunches(kind, launches[..|launches| - 1]) + Holds(kind, OpMu(l.id)) + Starts(kind, l.id, l.idle && l.up)
  }

  lemma {:induction false} CountLaunches(kind: Kind, launches: seq<Launch>)
    requires Coarse(kind)
    ensures Count(kind, Launches(launches)) == OfLaunches(kind, launches)
  {
    if launches != [] {
      var n := |launches| - 1;
      var l := launches[n];
      CountLaunches(kind, launches[..n]);
      CountRun(kind, l.id, l.idle, l.groups, l.up);
      CountConcat(kind, Launches(launches[..n]), RunProgram(l.id, l.idle, l.groups, l.up));
    }
  }

  /** What there is of a kind in an operation. */
  function Expected(kind: Kind, op: Operation): nat {
    match op
    case Register(id, start, _, up) => Starts(kind, id, start && up)
    case Run(id, idle, _, up) => Holds(kind, OpMu(id)) + Starts(kind, id, idle && up)
    case Restart(id, waits, _, up) => Holds(kind, OpMu(id)) + Times(kind, Join(1), waits) + Starts(kind, id, up)
    case Stop(id, waits) => Holds(kind, OpMu(id)) + Times(kind, Join(1), waits)
    case Delete(id, waits) => Holds(kind, OpMu(id)) + Times(kind, Join(1), waits)
    case StopChildren(children) =>
      Holds(kind, AutoStartMu) + OfChildren(kind, children) + Times(kind, Join(2), |children|)
    case StopCollectors(_) => Holds(kind, AutoStartMu)
    case AutoStart(_, launches) => Holds(kind, AutoStartMu) + OfLaunches(kind, launches)
    case _ => 0
  }

  lemma CountEntryOperation(kind: Kind, op: Operation)
    requires Coarse(kind) && (op.Restart? || op.Stop? || op.Delete?)
    ensures Count(kind, Program(op)) == Expected(kind, op)
  {
    var id := op.id;
    CountStopChild(kind, id, op.waits);
    CountBrief(kind, 1);
    CountUnder(kind, FieldMu(id), []);
    match op
    case Restart(_, waits, groups, up) =>
      var spawn := Spawn(id, groups, up);
      CountSpawn(kind, id, groups, up);
      CountUnder(kind, FieldMu(id), spawn);
      CountConcat(kind, StopChild(id, waits), Under(FieldMu(id), spawn));
      CountUnder(kind, OpMu(id), StopChild(id, waits) + Under(FieldMu(id), spawn));
      CountConcat(kind, Brief(1), Under(OpMu(id), StopChild(id, waits) + Under(FieldMu(id), spawn)));
    case Stop(_, waits) =>
      CountUnder(kind, OpMu(id), StopChild(id, waits));
      CountConcat(kind, Under(OpMu(id), StopChild(id, waits)), Under(FieldMu(id), []));
      CountConcat(kind, Brief(1), Under(OpMu(id), StopChild(id, waits)) + Under(FieldMu(id), []));
    case Delete(_, waits) =>
      CountConcat(kind, StopChild(id, waits), Brief(1));
      CountUnder(kind, OpMu(id), StopChild(id, waits) + Brief(1));
      CountConcat(kind, Brief(1), Under(OpMu(id), StopChild(id, waits) + Brief(1)));
  }

  lemma CountServerOperation(kind: Kind, op: Operation)
    requires Coarse(kind) && (op.StopChildren? || op.StopCollectors? || op.AutoStart?)
    ensures Count(kind, Program(op)) == Expected(kind, op)
  {
    CountBrief(kind, 1);
    match op
    case StopChildren(children) =>
      CountSurvey(kind, children);
      CountJoins(kind, 2, |children|);
      CountConcat(kind, Survey(children), Joins(2, |children|));
      CountConcat(kind, Brief(1), Survey(children) + Joins(2, |children|));
      CountUnder(kind, AutoStartMu, Brief(1) + (Survey(children) + Joins(2, |children|)));
    case StopCollectors(ids) =>
      CountReadAll(kind, ids);
      CountConcat(kind, Brief(1), ReadAll(ids));
      CountUnder(kind, AutoStartMu, Brief(1) + ReadAll(ids));
    case AutoStart(ids, launches) =>
      CountReadAll(kind, ids);
      CountLaunches(kind, launches);
      CountConcat(kind, ReadAll(ids), Launches(launches));
      CountConcat(kind, Brief(1), ReadAll(ids) + Launches(launches));
      CountUnder(kind, AutoStartMu, Brief(1) + (ReadAll(ids) + Launches(launches)));
  }

  lemma CountTwoSections(kind: Kind, id: Id, inner: seq<Instr>)
    requires Coarse(kind)
    ensures Count(kind, Brief(1) + (Under(FieldMu(id), []) + Under(FieldMu(id), inner))) == Count(kind, inner)
  {
    CountBrief(kind, 1);
    CountUnder(kind, FieldMu(id), []);
    CountUnder(kind, FieldMu(id), inner);
    CountConcat(kind, Under(FieldMu(id), []), Under(FieldMu(id), inner));
    CountConcat(kind, Brief(1), Under(FieldMu(id), []) + Under(FieldMu(id), inner));
  }

  lemma OperationsCount(kind: Kind, op: Operation)
    requires Coarse(kind)
    ensures Count(kind, Program(op)) == Expected(kind, op)
  {
    CountBrief(kind, 1);
    match op
    case Register(id, start, groups, up) =>
      CountSpawn(kind, id, groups, up);
      CountTwoSections(kind, id, if start then Spawn(id, groups, up) else []);
    case Update(id) => CountTwoSections(kind, id, []);
    case Run(id, idle, groups, up) => CountRun(kind, id, idle, groups, up);
    case List(ids) =>
      CountReadAll(kind, ids);
      CountConcat(kind, Brief(1), ReadAll(ids));
    case CloseServerJob =>
    case StopChildren(_) => CountServerOperation(kind, op);
    case StopCollectors(_) => CountServerOperation(kind, op);
    case AutoStart(_, _) => CountServerOperation(kind, op);
    case _ => CountEntryOperation(kind, op);
  }

  const PROCESS: Kind := (i: Instr) => i.Go? && i.depth == 0
  const WAIT: Kind := (i: Instr) => i == Join(1)

  /** An operation on an entry starts a process at most once, and exactly when it has one to start and that works. */
  lemma ProcessesStarted(op: Operation)
    ensures op.Register? ==> Count(PROCESS, Program(op)) == One(op.start && op.up)
    ensures op.Run? ==> Count(PROCESS, Program(op)) == One(op.idle && op.up)
    ensures op.Restart? ==> Count(PROCESS, Program(op)) == One(op.up)
    ensures op.Update? || op.Stop? || op.Delete? || op.List? || op.StopCollectors? || op.CloseServerJob? ==>
              Count(PROCESS, Program(op)) == 0
  {
    OperationsCount(PROCESS, op);
  }

  /** A stop waits for the watcher as often as it has to, and nothing else does. */
  lemma WatcherWaits(op: Operation)
    ensures op.Restart? || op.Stop? || op.Delete? ==> Count(WAIT, Program(op)) == op.waits
    ensures !(op.Restart? || op.Stop? || op.Delete? || op.StopChildren?) ==> Count(WAIT, Program(op)) == 0
  {
    OperationsCount(WAIT, op);
    if op.AutoStart? { NoneOfLaunches(WAIT, op.launches); }
  }

  lemma {:induction false} NoneOfLaunches(kind: Kind, launches: seq<Launch>)
    requires forall id: Id :: !kind(Acquire(OpMu(id))) && !kind(Release(OpMu(id))) && !kind(Go(0, Watch(id)))
    ensures OfLaunches(kind, launches) == 0
  {
    if launches != [] { NoneOfLaunches(kind, launches[..|launches| - 1]); }
  }

  /** Run, restart, stop and delete take the operation lock of their entry once and no other; registering takes none. */
  lemma OperationLockOnce(op: Operation, id: Id)
    ensures op.Run? || op.Restart? || op.Stop? || op.Delete? ==>
              Count((i: Instr) => i == Acquire(OpMu(id)), Program(op)) == One(id == op.id)
    ensures op.Register? || op.Update? || op.List? || op.StopCollectors? || op.CloseServerJob? ==>
              Count((i: Instr) => i == Acquire(OpMu(id)), Program(op)) == 0
  {
    OperationsCount((i: Instr) => i == Acquire(OpMu(id)), op);
  }

  /** No two threads of the manager are ever inside sections of the same lock. */
  lemma NeverTwoInside(events: seq<ManagerLocks.Event>, i: nat, j: nat, l: Lock)
    requires Happens([], PlainAll(events)) && i < j < |After([], PlainAll(events))|
    ensures var s := After([], PlainAll(events)); !(l in s[i].held && l in s[j].held)
  {
    RunKeepsOrdered([], PlainAll(events));
  }
}
