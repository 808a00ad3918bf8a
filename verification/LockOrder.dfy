/**
 Threads that take locks in one order, start other threads and wait for them. An operation is a program of such
 instructions; no set of operations that keeps the order can come to a standstill.
 */
module LockOrder {
  import opened Basics

  type Id = string

  datatype Lock = AutoStartMu | OpMu(id: Id) | FieldMu(id: Id) | ManagerMu

  function Rank(l: Lock): (r: nat)
    ensures r < 4
  {
    match l
    case AutoStartMu => 0
    case OpMu(_) => 1
    case FieldMu(_) => 2
    case ManagerMu => 3
  }

  /**
   Go starts a thread; Join waits for some thread of a depth below the given one that exists by then, or for none. Which
   thread it is depends on what ran before, so it is left to the run.
   */
  datatype Instr = Acquire(l: Lock) | Release(l: Lock) | Go(depth: nat, body: seq<Instr>) | Join(below: nat)

  /** Watchers are at depth 0, operations on one entry at 1, operations on all of them at 2. */
  function Floor(depth: nat): nat {
    if depth == 0 then 2 else if depth == 1 then 1 else 0
  }

  /** Every lock held is taken before any lock that a thread below this depth may take. */
  predicate HoldsBelow(held: set<Lock>, rank: nat) { forall h :: h in held ==> Rank(h) < rank }

  /** The locks held after a program, if it keeps the order all along. */
  function Effect(program: seq<Instr>, held: set<Lock>, depth: nat): Option<set<Lock>>
    decreases program
  {
    if program == [] then Some(held)
    else
      match program[0]
      case Acquire(l) =>
        if HoldsBelow(held, Rank(l)) && Rank(l) >= Floor(depth) then Effect(program[1..], held + {l}, depth) else None
      case Release(l) =>
        if l in held then Effect(program[1..], held - {l}, depth) else None
      case Go(d, body) =>
        if Effect(body, {}, d) == Some({}) then Effect(program[1..], held, depth) else None
      case Join(below) =>
        if 0 < below <= depth && HoldsBelow(held, Floor(below - 1)) then Effect(program[1..], held, depth) else None
  }

  /** From here the program keeps the order and gives back everything it holds. */
  predicate Disciplined(program: seq<Instr>, held: set<Lock>, depth: nat) {
    Effect(program, held, depth) == Some({})
  }

  datatype Thread = Thread(rest: seq<Instr>, held: set<Lock>, depth: nat, awaiting: Option<nat>)
  {
    predicate Finished() { rest == [] && awaiting.None? }
  }

  type State = seq<Thread>

  /** Whether thread i can take its next step. */
  predicate CanStep(s: State, i: nat)
    requires i < |s|
  {
    var t := s[i];
    if t.awaiting.Some? then t.awaiting.value < |s| && s[t.awaiting.value].Finished()
    else t.rest != [] && (t.rest[0].Acquire? ==> forall j :: 0 <= j < |s| ==> t.rest[0].l !in s[j].held)
  }

  /** Thread i takes its next step; `pick` is the thread a Join settles on. */
  function Step(s: State, i: nat, pick: nat): State
    requires i < |s| && CanStep(s, i)
  {
    var t := s[i];
    if t.awaiting.Some? then s[i := t.(awaiting := None)]
    else
      var next := t.(rest := t.rest[1..]);
      match t.rest[0]
      case Acquire(l) => s[i := next.(held := t.held + {l})]
      case Release(l) => s[i := next.(held := t.held - {l})]
      case Go(depth, body) => s[i := next] + [Thread(body, {}, depth, None)]
      case Join(below) =>
        s[i := if pick < |s| && s[pick].depth < below then next.(awaiting := Some(pick)) else next]
  }

  predicate ThreadOk(s: State, i: nat)
    requires i < |s|
  {
    && Disciplined(s[i].rest, s[i].held, s[i].depth)
    && (s[i].awaiting.Some? ==>
          (var k := s[i].awaiting.value;
           k < |s| && s[k].depth < s[i].depth && HoldsBelow(s[i].held, Floor(s[k].depth))))
  }

  ghost predicate Ordered(s: State) {
    && (forall i :: 0 <= i < |s| ==> ThreadOk(s, i))
    && (forall i, j :: 0 <= i < j < |s| ==> s[i].held !! s[j].held)
  }

  /** The next lock thread i is to take, or take part in waiting for, ranks at least `floor`. */
  predicate Above(s: State, i: nat, floor: nat)
    requires i < |s| && ThreadOk(s, i)
  {
    if s[i].awaiting.Some? then Floor(s[s[i].awaiting.value].depth) >= floor
    else s[i].rest != [] && s[i].rest[0].Acquire? ==> Rank(s[i].rest[0].l) >= floor
  }

  /** Follow what a thread waits for: the rank of the lock rises, or the depth of the thread falls. */
  lemma {:induction false} SomeoneCanStep(s: State, i: nat, floor: nat) returns (j: nat)
    requires Ordered(s) && i < |s| && !s[i].Finished() && floor <= 4
    requires ThreadOk(s, i) && Above(s, i, floor)
    ensures j < |s| && CanStep(s, j)
    decreases 4 - floor, s[i].depth
  {
    if CanStep(s, i) { return i; }
    if s[i].awaiting.Some? {
      var k := s[i].awaiting.value;
      assert ThreadOk(s, k);
      j := SomeoneCanStep(s, k, floor);
    } else {
      var l := s[i].rest[0].l;
      var h :| 0 <= h < |s| && l in s[h].held;
      assert ThreadOk(s, h);
      j := SomeoneCanStep(s, h, Rank(l) + 1);
    }
  }

  lemma StepKeepsOrdered(s: State, i: nat, pick: nat)
    requires Ordered(s) && i < |s| && CanStep(s, i)
    ensures Ordered(Step(s, i, pick))
  {
    var r := Step(s, i, pick);
    assert ThreadOk(s, i);
    forall j | 0 <= j < |r| ensures ThreadOk(r, j) {
      if j < |s| { assert ThreadOk(s, j) && r[j].depth == s[j].depth; }
      if j == i && s[i].awaiting.None? && s[i].rest[0].Join? { JoinBelow(s[i].held, s[i].rest[0].below, r); }
    }
    forall j, k | 0 <= j < k < |r| ensures r[j].held !! r[k].held {
      if k < |s| { assert s[j].held !! s[k].held; }
    }
  }

  /** A lock below the floor of the deepest thread waited for is below that of every other. */
  lemma JoinBelow(held: set<Lock>, below: nat, r: State)
    requires 0 < below && HoldsBelow(held, Floor(below - 1))
    ensures forall k :: 0 <= k < |r| && r[k].depth < below ==> HoldsBelow(held, Floor(r[k].depth))
  {
  }

  datatype Event = Begin(depth: nat, program: seq<Instr>) | Take(thread: nat, pick: nat)

  /** New operations may begin at any time; a thread that exists may take a step it can take. */
  predicate Possible(s: State, e: Event) {
    match e
    case Begin(depth, program) => Disciplined(program, {}, depth)
    case Take(i, pick) => i < |s| && CanStep(s, i)
  }

  function After(s: State, events: seq<Event>): State
    requires Happens(s, events)
    decreases |events|
  {
    if events == [] then s else After(Apply(s, events[0]), events[1..])
  }

  function Apply(s: State, e: Event): State
    requires Possible(s, e)
  {
    match e
    case Begin(depth, program) => s + [Thread(program, {}, depth, None)]
    case Take(i, pick) => Step(s, i, pick)
  }

  predicate Happens(s: State, events: seq<Event>)
    decreases |events|
  {
    events == [] || (Possible(s, events[0]) && Happens(Apply(s, events[0]), events[1..]))
  }

  lemma ApplyKeepsOrdered(s: State, e: Event)
    requires Ordered(s) && Possible(s, e)
    ensures Ordered(Apply(s, e))
  {
    match e
    case Begin(depth, program) =>
      var r := Apply(s, e);
      forall j | 0 <= j < |r| ensures ThreadOk(r, j) {
        if j < |s| { assert ThreadOk(s, j); }
      }
    case Take(i, pick) => StepKeepsOrdered(s, i, pick);
  }

  lemma {:induction false} RunKeepsOrdered(s: State, events: seq<Event>)
    requires Ordered(s) && Happens(s, events)
    ensures Ordered(After(s, events))
    decreases |events|
  {
    if events != [] {
      ApplyKeepsOrdered(s, events[0]);
      RunKeepsOrdered(Apply(s, events[0]), events[1..]);
    }
  }

  predicate AllFinished(s: State) { forall i :: 0 <= i < |s| ==> s[i].Finished() }

  /** Whatever has begun and however far it got, unless all of it is done some thread can go on. */
  lemma NoDeadlock(events: seq<Event>)
    requires Happens([], events)
    ensures AllFinished(After([], events)) || exists i :: 0 <= i < |After([], events)| && CanStep(After([], events), i)
  {
    var s := After([], events);
    RunKeepsOrdered([], events);
    if !AllFinished(s) {
      var i :| 0 <= i < |s| && !s[i].Finished();
      assert ThreadOk(s, i);
      var j := SomeoneCanStep(s, i, 0);
    }
  }

  // Everything that begun also ends.

  function Work(program: seq<Instr>): nat
    decreases program
  {
    if program == [] then 0
    else (match program[0]
          case Go(_, body) => 2 + Work(body)
          case _ => 2) + Work(program[1..])
  }

  function ThreadWork(t: Thread): nat { Work(t.rest) + if t.awaiting.Some? then 1 else 0 }

  function TotalWork(s: State): nat {
    if s == [] then 0 else TotalWork(s[..|s| - 1]) + ThreadWork(s[|s| - 1])
  }

  lemma {:induction false} WorkUpdate(s: State, i: nat, t: Thread)
    requires i < |s|
    ensures TotalWork(s[i := t]) == TotalWork(s) - ThreadWork(s[i]) + ThreadWork(t)
  {
    var n := |s| - 1;
    if i < n {
      WorkUpdate(s[..n], i, t);
      assert s[i := t][..n] == s[..n][i := t];
    } else {
      assert s[i := t][..n] == s[..n];
    }
  }

  lemma StepTakesWork(s: State, i: nat, pick: nat)
    requires i < |s| && CanStep(s, i)
    ensures TotalWork(Step(s, i, pick)) < TotalWork(s)
  {
    var r := Step(s, i, pick);
    WorkUpdate(s, i, r[i]);
    if |r| > |s| {
      assert r[..|s|] == s[i := r[i]];
    } else {
      assert r == s[i := r[i]];
    }
  }

  predicate OnlySteps(events: seq<Event>) { forall i :: 0 <= i < |events| ==> events[i].Take? }

  /** However the steps are scheduled and whatever each wait settles on, they use up the work there is. */
  lemma {:induction false} StepsTakeWork(s: State, events: seq<Event>)
    requires Happens(s, events) && OnlySteps(events)
    ensures |events| + TotalWork(After(s, events)) <= TotalWork(s)
    decreases |events|
  {
    if events != [] {
      StepTakesWork(s, events[0].thread, events[0].pick);
      StepsTakeWork(Apply(s, events[0]), events[1..]);
    }
  }

  /** No further step can be taken. */
  ghost predicate Stuck(s: State) { forall i :: 0 <= i < |s| ==> !CanStep(s, i) }

  /**
   Once nothing new begins, every schedule is over within the work there is, and it can stop only where everything that
   had begun has ended: no scheduler and no outcome of a wait keeps an operation from finishing.
   */
  lemma EveryScheduleEnds(s: State, events: seq<Event>)
    requires Ordered(s) && Happens(s, events) && OnlySteps(events)
    ensures |events| <= TotalWork(s)
    ensures Stuck(After(s, events)) <==> AllFinished(After(s, events))
  {
    var r := After(s, events);
    StepsTakeWork(s, events);
    RunKeepsOrdered(s, events);
    if !AllFinished(r) {
      var i :| 0 <= i < |r| && !r[i].Finished();
      assert ThreadOk(r, i);
      var j := SomeoneCanStep(r, i, 0);
    }
  }

  /** A schedule that still can go on can be carried on to such an end. */
  lemma {:induction false} AllCanFinish(s: State) returns (events: seq<Event>)
    requires Ordered(s)
    ensures Happens(s, events) && AllFinished(After(s, events)) && OnlySteps(events)
    decreases TotalWork(s)
  {
    if AllFinished(s) { return []; }
    var i :| 0 <= i < |s| && !s[i].Finished();
    assert ThreadOk(s, i);
    var j := SomeoneCanStep(s, i, 0);
    StepKeepsOrdered(s, j, 0);
    StepTakesWork(s, j, 0);
    var rest := AllCanFinish(Step(s, j, 0));
    events := [Take(j, 0)] + rest;
    assert events[1..] == rest;
  }
}
