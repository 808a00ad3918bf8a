/** Any number of Issue calls at once, interleaved between their store transactions. */
module IssueInterleavings {
  import opened Basics
  import opened StorageTime
  import opened Instances

  /** The next store operation of a call. */
  datatype Pc =
    | Lookup
    | Allocate
    | Inserting(attempt: nat, tail: string)
    | Rechecking(attempt: nat, tail: string)
    | Finished(result: Result)

  /**
   stamp is the text its created_at column gets; sequence is what NextSeq handed the call, if it got that far; inserts
   counts its inserts.
   */
  datatype Call = Call(req: Request, now: nat, stamp: string, datePart: string, pc: Pc,
                       sequence: Option<nat>, inserts: nat)

  datatype System = System(rows: seq<Row>, daily: map<string, nat>, calls: seq<Call>)

  datatype Fault = NoFault | StoreFault | RandomFault

  /** Which call moves, what its random source draws, what the database answers a lookup, and what goes wrong. */
  datatype Action = Action(call: nat, tail: string, found: Option<Row>, fault: Fault)

  predicate Begun(c: Call) {
    && c.pc == Lookup && c.sequence.None? && c.inserts == 0
    && InRange(c.now) && c.stamp == Storage(c.now) && IsDate(c.datePart)
  }

  ghost predicate Legal(s: System, a: Action) {
    && a.call < |s.calls|
    && IsTail(a.tail)
    && var c := s.calls[a.call];
    && DEDUP_WINDOW <= c.now
    && (c.pc.Inserting? ==> c.sequence.Some?)
    && (c.req.requestKey.Some? && (c.pc.Lookup? || c.pc.Rechecking?) ==>
          Answers(s.rows, c.req.requestKey.value, Cutoff(c.now), a.found))
  }

  function Proposal(c: Call, tail: string): Instance
    requires c.sequence.Some?
  {
    NewInstance(c.req, Identifier(c.datePart, c.sequence.value, tail), c.now)
  }

  function Finish(c: Call, r: Result): Call { c.(pc := Finished(r)) }

  /** After a collision that no stored instance explains: give up, or draw a new tail. */
  function Retry(c: Call, attempt: nat, a: Action): Call {
    if attempt >= COLLISION_RETRIES || a.fault == RandomFault then Finish(c, Failed)
    else c.(pc := Inserting(attempt + 1, a.tail))
  }

  /** A call after one insert, which added its instance, failed, or met the same identifier. */
  function InsertTried(c: Call, a: Action, inst: Instance, added: bool): Call
    requires c.pc.Inserting?
  {
    var d := c.(inserts := c.inserts + 1);
    if added then Finish(d, Fresh(inst))
    else if a.fault == StoreFault then Finish(d, Failed)
    else if c.req.requestKey.Some? then d.(pc := Rechecking(c.pc.attempt, c.pc.tail))
    else Retry(d, c.pc.attempt, a)
  }

  /** One store transaction of one call. */
  function Next(s: System, a: Action): System
    requires a.call < |s.calls|
    requires s.calls[a.call].pc.Inserting? ==> s.calls[a.call].sequence.Some?
  {
    var c := s.calls[a.call];
    var key := c.req.requestKey;
    match c.pc
    case Lookup =>
      var d := if key.None? then c.(pc := Allocate)
               else if a.fault == StoreFault then Finish(c, Failed)
               else if a.found.Some? then Finish(c, Deduplicated(a.found.value.inst))
               else c.(pc := Allocate);
      s.(calls := s.calls[a.call := d])
    case Allocate =>
      if a.fault == StoreFault then s.(calls := s.calls[a.call := Finish(c, Failed)])
      else
        var n := LastSeq(s.daily, c.datePart) + 1;
        var d := c.(sequence := Some(n));
        var refused := n > SEQUENCE_LIMIT || a.fault == RandomFault;
        var e := if refused then Finish(d, Failed) else d.(pc := Inserting(0, a.tail));
        s.(daily := s.daily[c.datePart := n], calls := s.calls[a.call := e])
    case Inserting(attempt, tail) =>
      var inst := Proposal(c, tail);
      var added := a.fault != StoreFault && !HasId(s.rows, inst.id);
      s.(rows := if added then s.rows + [Row(inst, c.stamp)] else s.rows,
         calls := s.calls[a.call := InsertTried(c, a, inst, added)])
    case Rechecking(attempt, tail) =>
      var d := if a.fault == StoreFault then Finish(c, Failed)
               else if a.found.Some? then Finish(c, Deduplicated(a.found.value.inst))
               else Retry(c, attempt, a);
      s.(calls := s.calls[a.call := d])
    case Finished(_) => s
  }

  // What every interleaving keeps.

  ghost predicate CallOk(c: Call, daily: map<string, nat>) {
    && IsDate(c.datePart)
    && (c.sequence.Some? ==> 1 <= c.sequence.value <= LastSeq(daily, c.datePart))
    && match c.pc
       case Lookup | Allocate => c.sequence.None? && c.inserts == 0
       case Inserting(attempt, tail) => Proposing(c) && c.inserts == attempt <= COLLISION_RETRIES && IsTail(tail)
       case Rechecking(attempt, tail) =>
         Proposing(c) && c.inserts == attempt + 1 <= COLLISION_RETRIES + 1 && IsTail(tail)
       case Finished(r) =>
         && c.inserts <= COLLISION_RETRIES + 1
         && (r.Fresh? ==> Proposing(c) && exists tail :: IsTail(tail) && r.inst == Proposal(c, tail))
  }

  predicate Proposing(c: Call) { c.sequence.Some? && c.sequence.value <= SEQUENCE_LIMIT }

  predicate DistinctSequences(calls: seq<Call>) {
    forall i, j :: 0 <= i < j < |calls| && calls[i].sequence.Some? && calls[i].datePart == calls[j].datePart ==>
      calls[i].sequence != calls[j].sequence
  }

  predicate DistinctIds(rows: seq<Row>) {
    forall i, j :: 0 <= i < j < |rows| ==> rows[i].inst.id != rows[j].inst.id
  }

  predicate HasRow(rows: seq<Row>, inst: Instance) { exists i :: 0 <= i < |rows| && rows[i].inst == inst }

  predicate IsFresh(c: Call) { c.pc.Finished? && c.pc.result.Fresh? }

  function FreshCount(calls: seq<Call>): nat {
    if calls == [] then 0
    else FreshCount(calls[..|calls| - 1]) + if IsFresh(calls[|calls| - 1]) then 1 else 0
  }

  /** initial is how many rows there were before the first call. */
  ghost predicate Inv(s: System, initial: nat) {
    && (forall i :: 0 <= i < |s.calls| ==> CallOk(s.calls[i], s.daily))
    && DistinctSequences(s.calls)
    && DistinctIds(s.rows)
    && |s.rows| == initial + FreshCount(s.calls)
    && forall i :: 0 <= i < |s.calls| && IsFresh(s.calls[i]) ==> HasRow(s.rows, s.calls[i].pc.result.inst)
  }

  lemma {:induction false} FreshCountUpdate(calls: seq<Call>, i: nat, c: Call)
    requires i < |calls| && !IsFresh(calls[i])
    ensures FreshCount(calls[i := c]) == FreshCount(calls) + if IsFresh(c) then 1 else 0
    decreases |calls|
  {
    var n := |calls| - 1;
    var u := calls[i := c];
    if i == n {
      assert u[..n] == calls[..n];
    } else {
      assert u[..n] == calls[..n][i := c];
      FreshCountUpdate(calls[..n], i, c);
    }
  }

  lemma {:induction false} NoneFresh(calls: seq<Call>)
    requires forall i :: 0 <= i < |calls| ==> !IsFresh(calls[i])
    ensures FreshCount(calls) == 0
  {
    if calls != [] { NoneFresh(calls[..|calls| - 1]); }
  }

  lemma RetryOk(c: Call, attempt: nat, a: Action, daily: map<string, nat>)
    requires IsTail(a.tail) && IsDate(c.datePart) && Proposing(c) && c.inserts == attempt + 1 <= COLLISION_RETRIES + 1
    requires 1 <= c.sequence.value <= LastSeq(daily, c.datePart)
    ensures CallOk(Retry(c, attempt, a), daily)
    ensures !IsFresh(Retry(c, attempt, a)) && Retry(c, attempt, a).sequence == c.sequence
    ensures Retry(c, attempt, a).datePart == c.datePart
  {
  }

  /** A call that keeps its sequence number and writes nothing keeps the invariant. */
  lemma QuietStepKeepsInv(s: System, i: nat, c: Call, initial: nat)
    requires Inv(s, initial) && i < |s.calls|
    requires CallOk(c, s.daily) && !IsFresh(c) && !IsFresh(s.calls[i])
    requires c.sequence == s.calls[i].sequence && c.datePart == s.calls[i].datePart
    ensures Inv(s.(calls := s.calls[i := c]), initial)
  {
    FreshCountUpdate(s.calls, i, c);
  }

  lemma AllocateKeepsInv(s: System, i: nat, c: Call, initial: nat)
    requires Inv(s, initial) && i < |s.calls| && s.calls[i].sequence.None? && !IsFresh(s.calls[i])
    requires c.datePart == s.calls[i].datePart
    requires var n := LastSeq(s.daily, c.datePart) + 1;
             c.sequence == Some(n) && CallOk(c, s.daily[c.datePart := n]) && !IsFresh(c)
    ensures Inv(s.(daily := s.daily[c.datePart := LastSeq(s.daily, c.datePart) + 1], calls := s.calls[i := c]), initial)
  {
    FreshCountUpdate(s.calls, i, c);
    forall j | 0 <= j < |s.calls| && j != i
      ensures CallOk(s.calls[j], s.daily[c.datePart := LastSeq(s.daily, c.datePart) + 1])
    {
      assert CallOk(s.calls[j], s.daily);
    }
    forall j | 0 <= j < |s.calls| && j != i && s.calls[j].sequence.Some? && s.calls[j].datePart == c.datePart
      ensures s.calls[j].sequence != c.sequence
    {
      assert CallOk(s.calls[j], s.daily);
    }
  }

  lemma RowKeepsInv(s: System, i: nat, c: Call, r: Row, initial: nat)
    requires Inv(s, initial) && i < |s.calls| && !IsFresh(s.calls[i])
    requires CallOk(c, s.daily) && IsFresh(c) && c.pc.result.inst == r.inst
    requires c.sequence == s.calls[i].sequence && c.datePart == s.calls[i].datePart
    requires !HasId(s.rows, r.inst.id)
    ensures Inv(System(s.rows + [r], s.daily, s.calls[i := c]), initial)
  {
    FreshCountUpdate(s.calls, i, c);
    var rows := s.rows + [r];
    assert rows[|s.rows|] == r && HasRow(rows, r.inst);
    forall j | 0 <= j < |s.calls| && j != i && IsFresh(s.calls[j])
      ensures HasRow(rows, s.calls[j].pc.result.inst)
    {
      var k :| 0 <= k < |s.rows| && s.rows[k].inst == s.calls[j].pc.result.inst;
      assert rows[k] == s.rows[k];
    }
  }

  /** What an insert that succeeds leads to. */
  lemma NewRowNext(s: System, a: Action, c: Call, d: Call, inst: Instance)
    requires a.call < |s.calls| && c == s.calls[a.call] && c.pc.Inserting? && c.sequence.Some? && a.fault != StoreFault
    requires inst == Proposal(c, c.pc.tail) && !HasId(s.rows, inst.id)
    requires d == Finish(c.(inserts := c.inserts + 1), Fresh(inst))
    ensures Next(s, a) == System(s.rows + [Row(inst, c.stamp)], s.daily, s.calls[a.call := d])
  {
  }

  lemma FreshOk(c: Call, d: Call, daily: map<string, nat>, inst: Instance)
    requires CallOk(c, daily) && c.pc.Inserting? && inst == Proposal(c, c.pc.tail)
    requires d == Finish(c.(inserts := c.inserts + 1), Fresh(inst))
    ensures CallOk(d, daily)
  {
    assert IsTail(c.pc.tail) && inst == Proposal(d, c.pc.tail);
  }

  lemma NewRowKeepsInv(s: System, a: Action, initial: nat)
    requires Inv(s, initial) && Legal(s, a) && s.calls[a.call].pc.Inserting? && a.fault != StoreFault
    requires !HasId(s.rows, Proposal(s.calls[a.call], s.calls[a.call].pc.tail).id)
    ensures Inv(Next(s, a), initial)
  {
    var c := s.calls[a.call];
    assert CallOk(c, s.daily);
    var inst := Proposal(c, c.pc.tail);
    var d := Finish(c.(inserts := c.inserts + 1), Fresh(inst));
    FreshOk(c, d, s.daily, inst);
    NewRowNext(s, a, c, d, inst);
    RowKeepsInv(s, a.call, d, Row(inst, c.stamp), initial);
  }

  lemma CollisionKeepsInv(s: System, a: Action, initial: nat)
    requires Inv(s, initial) && Legal(s, a) && s.calls[a.call].pc.Inserting?
    requires a.fault == StoreFault || HasId(s.rows, Proposal(s.calls[a.call], s.calls[a.call].pc.tail).id)
    ensures Inv(Next(s, a), initial)
  {
    var c := s.calls[a.call];
    assert CallOk(c, s.daily);
    var d := c.(inserts := c.inserts + 1);
    if a.fault != StoreFault && c.req.requestKey.None? { RetryOk(d, c.pc.attempt, a, s.daily); }
    QuietStepKeepsInv(s, a.call, Next(s, a).calls[a.call], initial);
  }

  lemma InsertKeepsInv(s: System, a: Action, initial: nat)
    requires Inv(s, initial) && Legal(s, a) && s.calls[a.call].pc.Inserting?
    ensures Inv(Next(s, a), initial)
  {
    var c := s.calls[a.call];
    if a.fault == StoreFault || HasId(s.rows, Proposal(c, c.pc.tail).id) {
      CollisionKeepsInv(s, a, initial);
    } else {
      NewRowKeepsInv(s, a, initial);
    }
  }

  lemma OtherStepsKeepInv(s: System, a: Action, initial: nat)
    requires Inv(s, initial) && Legal(s, a) && !s.calls[a.call].pc.Inserting?
    ensures Inv(Next(s, a), initial)
  {
    var c := s.calls[a.call];
    assert CallOk(c, s.daily);
    match c.pc
    case Lookup => QuietStepKeepsInv(s, a.call, Next(s, a).calls[a.call], initial);
    case Allocate =>
      if a.fault == StoreFault {
        QuietStepKeepsInv(s, a.call, Finish(c, Failed), initial);
      } else {
        AllocateKeepsInv(s, a.call, Next(s, a).calls[a.call], initial);
      }
    case Rechecking(attempt, tail) =>
      RetryOk(c, attempt, a, s.daily);
      QuietStepKeepsInv(s, a.call, Next(s, a).calls[a.call], initial);
    case Finished(_) =>
  }

  lemma StepKeepsInv(s: System, a: Action, initial: nat)
    requires Inv(s, initial) && Legal(s, a)
    ensures Inv(Next(s, a), initial)
  {
    if s.calls[a.call].pc.Inserting? { InsertKeepsInv(s, a, initial); } else { OtherStepsKeepInv(s, a, initial); }
  }

  /** Every state an interleaving of the given calls reaches, over any rows and counters found at the start. */
  ghost predicate Reaches(s: System, actions: seq<Action>, t: System)
    decreases |actions|
  {
    if actions == [] then s == t
    else
      && Legal(s, actions[0])
      && Reaches(Next(s, actions[0]), actions[1..], t)
  }

  predicate Starting(s: System) {
    (forall i :: 0 <= i < |s.calls| ==> Begun(s.calls[i])) && DistinctIds(s.rows)
  }

  lemma {:induction false} RunKeepsInv(s: System, actions: seq<Action>, t: System, initial: nat)
    requires Inv(s, initial) && Reaches(s, actions, t)
    ensures Inv(t, initial)
    decreases |actions|
  {
    if actions != [] {
      StepKeepsInv(s, actions[0], initial);
      RunKeepsInv(Next(s, actions[0]), actions[1..], t, initial);
    }
  }

  /**
   In every interleaving no two calls are handed the same day and sequence, no two rows share an identifier, no call
   inserts more than four times, and there is one new row for each fresh answer.
   */
  lemma InterleavingsAreSafe(s: System, actions: seq<Action>, t: System)
    requires Starting(s) && Reaches(s, actions, t)
    ensures DistinctSequences(t.calls) && DistinctIds(t.rows)
    ensures forall i :: 0 <= i < |t.calls| ==> t.calls[i].inserts <= COLLISION_RETRIES + 1
    ensures |t.rows| == |s.rows| + FreshCount(t.calls)
    ensures forall i :: 0 <= i < |t.calls| && IsFresh(t.calls[i]) ==> HasRow(t.rows, t.calls[i].pc.result.inst)
  {
    NoneFresh(s.calls);
    RunKeepsInv(s, actions, t, |s.rows|);
    assert forall i :: 0 <= i < |t.calls| ==> CallOk(t.calls[i], t.daily);
  }

  /** The identifier a call is proposing or has stored. */
  predicate Proposes(c: Call, tail: string) {
    && c.sequence.Some? && IsTail(tail)
    && match c.pc
       case Inserting(_, u) => u == tail
       case Rechecking(_, u) => u == tail
       case Finished(Fresh(inst)) => inst == Proposal(c, tail)
       case _ => false
  }

  /** Calls never collide with one another: a retry is only ever caused by a row that was there without them. */
  lemma CallsNeverCollide(s: System, actions: seq<Action>, t: System, i: nat, j: nat, x: string, y: string)
    requires Starting(s) && Reaches(s, actions, t)
    requires i < j < |t.calls| && Proposes(t.calls[i], x) && Proposes(t.calls[j], y)
    ensures Proposal(t.calls[i], x).id != Proposal(t.calls[j], y).id
  {
    NoneFresh(s.calls);
    RunKeepsInv(s, actions, t, |s.rows|);
    var (c, d) := (t.calls[i], t.calls[j]);
    assert CallOk(c, t.daily) && CallOk(d, t.daily);
    if Proposal(c, x).id == Proposal(d, y).id {
      IdentifierInjective(c.datePart, c.sequence.value, x, d.datePart, d.sequence.value, y);
    }
  }

  // Deduplication is promised for serial runs only.

  const TAIL_A := "000000"
  const TAIL_B := "000001"

  function Move(call: nat, tail: string): Action { Action(call, tail, None, NoFault) }

  ghost predicate BothFresh(t: System) {
    && |t.calls| == 2 && IsFresh(t.calls[0]) && IsFresh(t.calls[1])
    && t.calls[0].req.requestKey.Some? && t.calls[0].req == t.calls[1].req && t.calls[0].now == t.calls[1].now
  }

  lemma LookupStep(s: System, i: nat, tail: string)
    requires i < |s.calls| && s.calls[i].pc.Lookup? && s.rows == [] && InRange(s.calls[i].now) && IsTail(tail)
    ensures Legal(s, Move(i, tail)) && Next(s, Move(i, tail)) == s.(calls := s.calls[i := s.calls[i].(pc := Allocate)])
  {
  }

  lemma AllocateStep(s: System, i: nat, tail: string, n: nat)
    requires i < |s.calls| && s.calls[i].pc.Allocate? && InRange(s.calls[i].now) && IsTail(tail)
    requires n == LastSeq(s.daily, s.calls[i].datePart) + 1 <= SEQUENCE_LIMIT
    ensures Legal(s, Move(i, tail))
    ensures Next(s, Move(i, tail)) ==
            s.(daily := s.daily[s.calls[i].datePart := n],
               calls := s.calls[i := s.calls[i].(sequence := Some(n), pc := Inserting(0, tail))])
  {
  }

  lemma InsertStep(s: System, i: nat, tail: string)
    requires i < |s.calls| && s.calls[i].pc == Inserting(0, tail) && s.calls[i].sequence.Some?
    requires InRange(s.calls[i].now) && IsTail(tail) && !HasId(s.rows, Proposal(s.calls[i], tail).id)
    ensures Legal(s, Move(i, tail))
    ensures var t := Next(s, Move(i, tail));
            && |t.rows| == |s.rows| + 1 && t.rows[|s.rows|].inst == Proposal(s.calls[i], tail)
            && (forall k :: 0 <= k < |s.rows| ==> t.rows[k] == s.rows[k])
            && |t.calls| == |s.calls| && IsFresh(t.calls[i]) && t.calls[i].req == s.calls[i].req
            && t.calls[i].now == s.calls[i].now && forall j :: 0 <= j < |s.calls| && j != i ==> t.calls[j] == s.calls[j]
  {
  }

  function At(c: Call, n: nat, tail: string): Call { c.(sequence := Some(n), pc := Inserting(0, tail)) }

  lemma BothAllocate(c: Call) returns (actions: seq<Action>, t: System)
    requires Begun(c)
    ensures Reaches(TwoCalls(c), actions, t)
    ensures t.rows == [] && t.calls == [At(c, 1, TAIL_A), At(c, 2, TAIL_B)]
  {
    var s0, d := System([], map[], [c, c]), c.(pc := Allocate);
    assert IsTail(TAIL_A) && IsTail(TAIL_B);
    LookupStep(s0, 0, TAIL_A);
    var s1 := s0.(calls := [d, c]);
    assert s0.calls[0 := d] == s1.calls;
    LookupStep(s1, 1, TAIL_B);
    var s2 := s0.(calls := [d, d]);
    assert s1.calls[1 := d] == s2.calls;
    AllocateStep(s2, 0, TAIL_A, 1);
    var s3 := System([], map[c.datePart := 1], [At(c, 1, TAIL_A), d]);
    assert Next(s2, Move(0, TAIL_A)) == s3;
    AllocateStep(s3, 1, TAIL_B, 2);
    t := Next(s3, Move(1, TAIL_B));
    Chain(s3, Move(1, TAIL_B), [], t);
    Chain(s2, Move(0, TAIL_A), [Move(1, TAIL_B)], t);
    Chain(s1, Move(1, TAIL_B), [Move(0, TAIL_A), Move(1, TAIL_B)], t);
    Chain(s0, Move(0, TAIL_A), [Move(1, TAIL_B), Move(0, TAIL_A), Move(1, TAIL_B)], t);
    actions := [Move(0, TAIL_A)] + [Move(1, TAIL_B), Move(0, TAIL_A), Move(1, TAIL_B)];
  }

  lemma BothInsert(c: Call, s: System) returns (actions: seq<Action>, t: System)
    requires Begun(c) && c.req.requestKey.Some?
    requires s.rows == [] && s.calls == [At(c, 1, TAIL_A), At(c, 2, TAIL_B)]
    ensures Reaches(s, actions, t) && BothFresh(t)
  {
    assert IsTail(TAIL_A) && IsTail(TAIL_B);
    InsertStep(s, 0, TAIL_A);
    var s1 := Next(s, Move(0, TAIL_A));
    SecondIsNew(s1, c.datePart);
    InsertStep(s1, 1, TAIL_B);
    t := Next(s1, Move(1, TAIL_B));
    Chain(s1, Move(1, TAIL_B), [], t);
    Chain(s, Move(0, TAIL_A), [Move(1, TAIL_B)], t);
    actions := [Move(0, TAIL_A)] + [Move(1, TAIL_B)];
  }

  lemma {:induction false} ReachesConcat(s: System, a: seq<Action>, t: System, b: seq<Action>, u: System)
    requires Reaches(s, a, t) && Reaches(t, b, u)
    ensures Reaches(s, a + b, u)
    decreases |a|
  {
    if a == [] {
      assert a + b == b;
    } else {
      ReachesConcat(Next(s, a[0]), a[1..], t, b, u);
      assert (a + b)[1..] == a[1..] + b;
    }
  }

  function TwoCalls(c: Call): System { System([], map[], [c, c]) }

  lemma DuplicateRun(c: Call) returns (actions: seq<Action>, t: System)
    requires Begun(c) && c.req.requestKey.Some?
    ensures Reaches(TwoCalls(c), actions, t) && BothFresh(t)
  {
    var first, mid := BothAllocate(c);
    var second;
    second, t := BothInsert(c, mid);
    actions := first + second;
    ReachesConcat(TwoCalls(c), first, mid, second, t);
  }

  /** Two calls with one key that both look before either inserts both get a fresh instance. */
  lemma ConcurrentCallsDuplicate(c: Call)
    requires Begun(c) && c.req.requestKey.Some?
    ensures Starting(TwoCalls(c))
    ensures exists actions, t :: Reaches(TwoCalls(c), actions, t) && BothFresh(t)
  {
    var actions, t := DuplicateRun(c);
  }

  lemma SecondIsNew(s: System, datePart: string)
    requires IsDate(datePart) && |s.rows| == 1 && |s.calls| == 2
    requires s.rows[0].inst.id == Identifier(datePart, 1, TAIL_A)
    requires s.calls[1].sequence == Some(2) && s.calls[1].datePart == datePart
    ensures !HasId(s.rows, Proposal(s.calls[1], TAIL_B).id)
  {
    assert IsTail(TAIL_A) && IsTail(TAIL_B);
    if Identifier(datePart, 1, TAIL_A) == Identifier(datePart, 2, TAIL_B) {
      IdentifierInjective(datePart, 1, TAIL_A, datePart, 2, TAIL_B);
    }
  }

  lemma Chain(s: System, a: Action, rest: seq<Action>, t: System)
    requires Legal(s, a) && Reaches(Next(s, a), rest, t)
    ensures Reaches(s, [a] + rest, t)
  {
    assert ([a] + rest)[1..] == rest;
  }
}
