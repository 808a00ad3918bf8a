/** Issuing one instance against the registry: lookup, allocation, and the bounded insert loop. */
module Issuer {
  import opened Basics
  import opened Ordering
  import opened StorageTime
  import opened Instances

  datatype InsertResult = Inserted | DuplicateKey | OtherError

  /**
   What goes wrong during one call: the lookup, the allocation, and, attempt by attempt, the draw of the random tail,
   the insert, and the second lookup after a collision.
   */
  datatype Faults = Faults(lookupOk: bool, sequenceOk: bool, draw: nat -> Option<Tail>, insertOk: nat -> bool,
                           lookAgainOk: nat -> bool)
  {
    ghost predicate None() {
      lookupOk && sequenceOk && forall a: nat :: draw(a).Some? && insertOk(a) && lookAgainOk(a)
    }
  }

  /** The database as the store's transactions see it: each method is one transaction and may fail without effect. */
  class Registry {
    var rows: seq<Row>
    var daily: map<string, nat>

    constructor ()
      ensures rows == [] && daily == map[]
    {
      rows, daily := [], map[];
    }

    method NextSeq(datePart: string, works: bool) returns (sequence: nat, ok: bool)
      modifies this`daily
      ensures ok == works
      ensures ok ==> sequence == LastSeq(old(daily), datePart) + 1 && daily == old(daily)[datePart := sequence]
      ensures ok ==> sequence == if datePart in old(daily) then old(daily)[datePart] + 1 else 1
      ensures !ok ==> daily == old(daily)
    {
      sequence, ok := 0, works;
      if works {
        if datePart in daily {
          daily := daily[datePart := daily[datePart] + 1];
        } else {
          daily := daily[datePart := 1];
        }
        sequence := daily[datePart];
      }
    }

    method Insert(inst: Instance, works: bool) returns (r: InsertResult)
      modifies this`rows
      ensures r == if !works then OtherError else if HasId(old(rows), inst.id) then DuplicateKey else Inserted
      ensures rows == if r == Inserted then old(rows) + [Stored(inst)] else old(rows)
    {
      if !works { return OtherError; }
      for i := 0 to |rows|
        invariant forall k :: 0 <= k < i ==> rows[k].inst.id != inst.id
        invariant rows == old(rows)
      {
        if rows[i].inst.id == inst.id { return DuplicateKey; }
      }
      rows := rows + [Stored(inst)];
      return Inserted;
    }

    method FindActiveByKey(key: string, now: nat, works: bool) returns (found: Option<Row>, ok: bool)
      requires DEDUP_WINDOW <= now
      ensures ok == works
      ensures ok ==> Answers(rows, key, Cutoff(now), found)
    {
      found, ok := None, works;
      if works { found := SelectNewest(key, Cutoff(now)); }
    }

    /** The query itself. */
    method SelectNewest(key: string, cutoff: string) returns (found: Option<Row>)
      ensures Answers(rows, key, cutoff, found)
    {
      found := None;
      for i := 0 to |rows|
        invariant Answers(rows[..i], key, cutoff, found)
      {
        assert rows[..i + 1] == rows[..i] + [rows[i]];
        if Matches(rows[i], key, cutoff) && (found.None? || Less(found.value.created, rows[i].created)) {
          NewerIsNewest(rows[..i], key, cutoff, found, rows[i]);
          found := Some(rows[i]);
        }
      }
      assert rows[..|rows|] == rows;
    }
  }

  lemma NewerIsNewest(rows: seq<Row>, key: string, cutoff: string, found: Option<Row>, r: Row)
    requires Answers(rows, key, cutoff, found) && Matches(r, key, cutoff)
    requires found.None? || Less(found.value.created, r.created)
    ensures Answers(rows + [r], key, cutoff, Some(r))
  {
    var all := rows + [r];
    forall i | 0 <= i < |all| && Matches(all[i], key, cutoff)
      ensures !Less(r.created, all[i].created)
    {
      LessIrreflexive(r.created);
      if i < |rows| && Less(r.created, all[i].created) {
        assert all[i] == rows[i];
        LessTransitive(found.value.created, r.created, rows[i].created);
      }
    }
  }

  /** What one call may do to the registry. */
  ghost predicate Issued(req: Request, now: nat, datePart: string, before: seq<Row>, daily: map<string, nat>,
                         after: seq<Row>, daily': map<string, nat>, result: Result)
    requires DEDUP_WINDOW <= now
  {
    var next := LastSeq(daily, datePart) + 1;
    && (daily' == daily || daily' == daily[datePart := next])
    && match result
       case Failed => after == before
       case Deduplicated(inst) =>
         && after == before
         && req.requestKey.Some?
         && exists row: Row :: row.inst == inst && Answers(before, req.requestKey.value, Cutoff(now), Some(row))
       case Fresh(inst) =>
         && after == before + [Stored(inst)]
         && !HasId(before, inst.id)
         && daily' == daily[datePart := next] && next <= SEQUENCE_LIMIT
         && (exists tail :: IsTail(tail) && inst == NewInstance(req, Identifier(datePart, next, tail), now))
         && (req.requestKey.Some? ==> Answers(before, req.requestKey.value, Cutoff(now), None))
  }

  // When a call succeeds, and with what.

  /** The identifier attempt a proposes is there already, and nothing stops the call from proposing another. */
  predicate PassesOver(req: Request, datePart: string, sequence: nat, f: Faults, rows: seq<Row>, a: nat) {
    && f.draw(a).Some? && f.insertOk(a) && HasId(rows, Identifier(datePart, sequence, f.draw(a).value))
    && (req.requestKey.Some? ==> f.lookAgainOk(a))
  }

  predicate Stores(datePart: string, sequence: nat, f: Faults, rows: seq<Row>, a: nat) {
    f.draw(a).Some? && f.insertOk(a) && !HasId(rows, Identifier(datePart, sequence, f.draw(a).value))
  }

  predicate AllPassOver(req: Request, datePart: string, sequence: nat, f: Faults, rows: seq<Row>, a: nat) {
    forall b :: 0 <= b < a ==> PassesOver(req, datePart, sequence, f, rows, b)
  }

  predicate StoresFirst(req: Request, datePart: string, sequence: nat, f: Faults, rows: seq<Row>, a: nat) {
    Stores(datePart, sequence, f, rows, a) && AllPassOver(req, datePart, sequence, f, rows, a)
  }

  /** One of the four attempts stores, and those before it collided. */
  predicate Settles(req: Request, datePart: string, sequence: nat, f: Faults, rows: seq<Row>) {
    exists a :: 0 <= a <= 3 && StoresFirst(req, datePart, sequence, f, rows, a)
  }

  /** An attempt that neither stores nor is passed over ends the call; so does the last one. */
  lemma StopsAt(req: Request, datePart: string, sequence: nat, f: Faults, rows: seq<Row>, a: nat)
    requires AllPassOver(req, datePart, sequence, f, rows, a) && !Stores(datePart, sequence, f, rows, a)
    requires a >= 3 || !PassesOver(req, datePart, sequence, f, rows, a)
    ensures !Settles(req, datePart, sequence, f, rows)
  {
    forall c | 0 <= c <= 3 ensures !StoresFirst(req, datePart, sequence, f, rows, c) {
      assert c < a ==> PassesOver(req, datePart, sequence, f, rows, c);
    }
  }

  /** The registry holds a row of the request's key inside the window. */
  predicate Known(req: Request, rows: seq<Row>, cutoff: string) {
    req.requestKey.Some? && exists i :: 0 <= i < |rows| && Matches(rows[i], req.requestKey.value, cutoff)
  }

  lemma {:induction false} FirstStores(req: Request, datePart: string, sequence: nat, f: Faults, rows: seq<Row>, a: nat)
    requires f.None() && Stores(datePart, sequence, f, rows, a)
    ensures exists b :: 0 <= b <= a && StoresFirst(req, datePart, sequence, f, rows, b)
    decreases a
  {
    if b :| 0 <= b < a && !PassesOver(req, datePart, sequence, f, rows, b) {
      FirstStores(req, datePart, sequence, f, rows, b);
    } else {
      assert StoresFirst(req, datePart, sequence, f, rows, a);
    }
  }

  /** Without a fault, only four collisions in a row keep a call from storing. */
  lemma FaultlessSettles(req: Request, datePart: string, sequence: nat, f: Faults, rows: seq<Row>)
    requires f.None()
    ensures Settles(req, datePart, sequence, f, rows) <==>
            exists a :: 0 <= a <= 3 && Stores(datePart, sequence, f, rows, a)
  {
    if a :| 0 <= a <= 3 && Stores(datePart, sequence, f, rows, a) {
      FirstStores(req, datePart, sequence, f, rows, a);
    }
  }

  class Service {
    const registry: Registry

    constructor (registry: Registry)
      ensures this.registry == registry
    {
      this.registry := registry;
    }

    /** One insert, and after a collision the look for an instance that explains it. */
    method TryInsert(inst: Instance, req: Request, now: nat, insertOk: bool, lookAgainOk: bool)
      returns (attempt: Attempt)
      requires DEDUP_WINDOW <= now
      modifies registry`rows
      ensures attempt.Collided? ==>
                && registry.rows == old(registry.rows) && HasId(old(registry.rows), inst.id)
                && insertOk && (req.requestKey.Some? ==> lookAgainOk)
      ensures attempt.Settled? ==> Attempted(inst, req, now, old(registry.rows), registry.rows, attempt.result)
      ensures attempt == Settled(Fresh(inst)) <==> insertOk && !HasId(old(registry.rows), inst.id)
      ensures attempt.Collided? || Known(req, old(registry.rows), Cutoff(now)) ||
              !insertOk || !HasId(old(registry.rows), inst.id) || (req.requestKey.Some? && !lookAgainOk)
    {
      var written := registry.Insert(inst, insertOk);
      if written == Inserted { return Settled(Fresh(inst)); }
      if written != DuplicateKey { return Settled(Failed); }
      if req.requestKey.Some? {
        var existing, found := registry.FindActiveByKey(req.requestKey.value, now, lookAgainOk);
        if !found { return Settled(Failed); }
        if existing.Some? { return Settled(Deduplicated(existing.value.inst)); }
      }
      return Collided;
    }

    /**
     datePart is the local date of now. attempts counts the inserts; the instance answered is the row found or written.
     A call answers with a row of its key inside the window if the lookup finds one; otherwise it stores a new row, if
     there is a number left and one of the attempts succeeds; and it fails in all other cases.
     */
    method Issue(req: Request, now: nat, datePart: string, f: Faults)
      returns (answer: PublicInstance, ok: bool, result: Result, attempts: nat)
      requires DEDUP_WINDOW <= now
      modifies registry
      ensures Issued(req, now, datePart, old(registry.rows), old(registry.daily), registry.rows, registry.daily, result)
      ensures ok <==> !result.Failed?
      ensures result.Fresh? ==> FreshAnswer(req, now, answer, old(registry.rows), registry.rows)
      ensures result.Deduplicated? ==> KnownAnswer(req, now, answer, old(registry.rows))
      ensures attempts <= 4
      ensures result.Fresh? ==>
                attempts > 0 && StoresFirst(req, datePart, LastSeq(old(registry.daily), datePart) + 1, f,
                                            old(registry.rows), attempts - 1)
      ensures var lookedUp := req.requestKey.Some? ==> f.lookupOk;
        var known := Known(req, old(registry.rows), Cutoff(now));
        var next := LastSeq(old(registry.daily), datePart) + 1;
        && (result.Deduplicated? <==> lookedUp && known)
        && registry.daily == (if lookedUp && !known && f.sequenceOk then old(registry.daily)[datePart := next]
                              else old(registry.daily))
        && (result.Fresh? <==> lookedUp && !known && f.sequenceOk && next <= 99999999
                               && Settles(req, datePart, next, f, old(registry.rows)))
    {
      attempts := 0;
      answer, ok, result := PublicInstance("", "", "", "", 0, None, false), false, Failed;
      if req.requestKey.Some? {
        var existing, found := registry.FindActiveByKey(req.requestKey.value, now, f.lookupOk);
        if !found { return; }
        if existing.Some? {
          return Public(existing.value.inst, true), true, Deduplicated(existing.value.inst), attempts;
        }
      }
      var sequence, granted := registry.NextSeq(datePart, f.sequenceOk);
      if !granted { return; }
      if sequence > SEQUENCE_LIMIT { return; }
      result, attempts := InsertLoop(req, now, datePart, sequence, f);
      ok := !result.Failed?;
      if ok { answer := Public(result.inst, result.Deduplicated?); }
    }

    /**
     Inserts under one sequence number, each time with another tail, until it is settled or the retries are used up.
     */
    method InsertLoop(req: Request, now: nat, datePart: string, sequence: nat, f: Faults)
      returns (result: Result, attempts: nat)
      requires DEDUP_WINDOW <= now
      modifies registry`rows
      ensures attempts <= COLLISION_RETRIES + 1
      ensures SomeAttempt(req, now, datePart, sequence, old(registry.rows), registry.rows, result)
      ensures result.Fresh? ==>
                attempts > 0 && StoresFirst(req, datePart, sequence, f, old(registry.rows), attempts - 1)
      ensures result.Fresh? || Known(req, old(registry.rows), Cutoff(now)) ||
              !Settles(req, datePart, sequence, f, old(registry.rows))
    {
      attempts := 0;
      if f.draw(0).None? {
        StopsAt(req, datePart, sequence, f, registry.rows, 0);
        NothingDone(req, now, datePart, sequence, registry.rows);
        return Failed, attempts;
      }
      var inst := NewInstance(req, Identifier(datePart, sequence, f.draw(0).value), now);
      var attempt := 0;
      while true
        invariant attempt <= COLLISION_RETRIES && attempts == attempt
        invariant registry.rows == old(registry.rows)
        invariant AllPassOver(req, datePart, sequence, f, old(registry.rows), attempt)
        invariant f.draw(attempt).Some?
        invariant inst == NewInstance(req, Identifier(datePart, sequence, f.draw(attempt).value), now)
        decreases COLLISION_RETRIES - attempt
      {
        var outcome := TryInsert(inst, req, now, f.insertOk(attempt), f.lookAgainOk(attempt));
        attempts := attempts + 1;
        if outcome.Settled? {
          SomeAttemptBy(req, now, datePart, sequence, old(registry.rows), registry.rows, outcome.result,
                        f.draw(attempt).value);
          if !outcome.result.Fresh? && !Known(req, old(registry.rows), Cutoff(now)) {
            StopsAt(req, datePart, sequence, f, old(registry.rows), attempt);
          }
          return outcome.result, attempts;
        }
        NothingDone(req, now, datePart, sequence, registry.rows);
        if attempt >= COLLISION_RETRIES {
          StopsAt(req, datePart, sequence, f, old(registry.rows), attempt);
          return Failed, attempts;
        }
        if f.draw(attempt + 1).None? {
          StopsAt(req, datePart, sequence, f, old(registry.rows), attempt + 1);
          return Failed, attempts;
        }
        attempt := attempt + 1;
        inst := inst.(id := Identifier(datePart, sequence, f.draw(attempt).value));
      }
    }
  }

  /** A fresh answer tells of the request and of the row it left behind. */
  predicate FreshAnswer(req: Request, now: nat, answer: PublicInstance, before: seq<Row>, after: seq<Row>) {
    && !answer.deduplicated && answer.status == "created" && answer.createdAt == now
    && answer.kind == req.kind && answer.requester == req.requester && answer.labelText == req.labelText
    && |after| == |before| + 1 && after[..|before|] == before
    && var r := after[|before|];
       && r.inst.id == answer.id && r.inst.status == "created" && r.inst.createdAt == now
       && r.inst.kind == req.kind && r.inst.requester == req.requester && r.inst.labelText == req.labelText
       && r.inst.requestKey == req.requestKey && r.inst.ttlSeconds == req.ttlSeconds
       && r.inst.expiresAt == now + req.ttlSeconds * 1_000_000_000
       && r.created == Storage(now)
  }

  predicate TellsOf(answer: PublicInstance, r: Row) {
    && answer.id == r.inst.id && answer.status == r.inst.status && answer.kind == r.inst.kind
    && answer.requester == r.inst.requester && answer.createdAt == r.inst.createdAt
    && answer.labelText == r.inst.labelText
  }

  /** A deduplicated answer tells of the newest row of the request's key inside the window. */
  ghost predicate KnownAnswer(req: Request, now: nat, answer: PublicInstance, rows: seq<Row>)
    requires DEDUP_WINDOW <= now
  {
    && answer.deduplicated && req.requestKey.Some?
    && exists r: Row :: TellsOf(answer, r) && Answers(rows, req.requestKey.value, Cutoff(now), Some(r))
  }

  datatype Attempt = Settled(result: Result) | Collided

  /** What inserting an instance may come to. */
  ghost predicate Attempted(inst: Instance, req: Request, now: nat, before: seq<Row>, after: seq<Row>, result: Result)
    requires DEDUP_WINDOW <= now
  {
    match result
    case Failed => after == before
    case Deduplicated(other) =>
      && after == before && req.requestKey.Some?
      && exists row: Row :: row.inst == other && Answers(before, req.requestKey.value, Cutoff(now), Some(row))
    case Fresh(other) => other == inst && after == before + [Stored(inst)] && !HasId(before, inst.id)
  }

  /** The same for an instance under the given sequence number, whatever its tail. */
  ghost predicate SomeAttempt(req: Request, now: nat, datePart: string, sequence: nat,
                              before: seq<Row>, after: seq<Row>, result: Result)
    requires DEDUP_WINDOW <= now
  {
    exists tail :: IsTail(tail) &&
      Attempted(NewInstance(req, Identifier(datePart, sequence, tail), now), req, now, before, after, result)
  }

  lemma SomeAttemptBy(req: Request, now: nat, datePart: string, sequence: nat, before: seq<Row>, after: seq<Row>,
                      result: Result, tail: Tail)
    requires DEDUP_WINDOW <= now
    requires Attempted(NewInstance(req, Identifier(datePart, sequence, tail), now), req, now, before, after, result)
    ensures SomeAttempt(req, now, datePart, sequence, before, after, result)
  {
  }

  lemma NothingDone(req: Request, now: nat, datePart: string, sequence: nat, rows: seq<Row>)
    requires DEDUP_WINDOW <= now
    ensures SomeAttempt(req, now, datePart, sequence, rows, rows, Failed)
  {
    var tail := "000000";
    assert IsTail(tail);
  }

  // Serial runs.

  datatype Entry = Entry(req: Request, now: nat, datePart: string, rows: seq<Row>, daily: map<string, nat>,
                         result: Result)

  /** Each entry starts from where the one before it ended, and the clock never goes back. */
  ghost predicate Serial(rows: seq<Row>, daily: map<string, nat>, clock: nat, run: seq<Entry>)
    decreases |run|
  {
    run == [] ||
    var e := run[0];
    && clock <= e.now && InRange(e.now)
    && Issued(e.req, e.now, e.datePart, rows, daily, e.rows, e.daily, e.result)
    && Serial(e.rows, e.daily, e.now, run[1..])
  }

  function FinalRows(rows: seq<Row>, run: seq<Entry>): seq<Row> {
    if run == [] then rows else run[|run| - 1].rows
  }

  predicate PastAndValid(rows: seq<Row>, clock: nat) {
    forall i :: 0 <= i < |rows| ==>
      rows[i].inst.createdAt <= clock && Millis(rows[i].inst.createdAt) < YEAR_10000 && rows[i] == Stored(rows[i].inst)
  }

  lemma RowKeepsSpacing(rows: seq<Row>, clock: nat, now: nat, r: Row)
    requires Spaced(rows) && PastAndValid(rows, clock) && clock <= now && InRange(now)
    requires r == Stored(r.inst) && r.inst.createdAt == now
    requires r.inst.requestKey.Some? ==> Answers(rows, r.inst.requestKey.value, Cutoff(now), None)
    ensures Spaced(rows + [r]) && PastAndValid(rows + [r], now)
  {
    forall i | 0 <= i < |rows| && SameKey(rows[i], r)
      ensures Millis(rows[i].inst.createdAt) + 300_000 <= Millis(now)
    {
      MatchesByMillis(rows[i], r.inst.requestKey.value, now);
    }
  }

  lemma IssueKeepsSpacing(rows: seq<Row>, clock: nat, e: Entry, daily: map<string, nat>)
    requires Spaced(rows) && PastAndValid(rows, clock) && clock <= e.now && InRange(e.now)
    requires Issued(e.req, e.now, e.datePart, rows, daily, e.rows, e.daily, e.result)
    ensures Spaced(e.rows) && PastAndValid(e.rows, e.now)
  {
    if e.result.Fresh? { RowKeepsSpacing(rows, clock, e.now, Stored(e.result.inst)); }
  }

  /** With calls one after another on a clock that never goes back, one key is never issued twice within the window. */
  lemma {:induction false} SerialRunsStaySpaced(rows: seq<Row>, daily: map<string, nat>, clock: nat, run: seq<Entry>)
    requires Spaced(rows) && PastAndValid(rows, clock)
    requires Serial(rows, daily, clock, run)
    ensures Spaced(FinalRows(rows, run))
    decreases |run|
  {
    if run != [] {
      var e := run[0];
      IssueKeepsSpacing(rows, clock, e, daily);
      SerialRunsStaySpaced(e.rows, e.daily, e.now, run[1..]);
      assert FinalRows(rows, run) == FinalRows(e.rows, run[1..]);
    }
  }

  lemma AnswersByMillis(rows: seq<Row>, clock: nat, key: string, now: nat, found: Option<Row>)
    requires PastAndValid(rows, clock) && clock <= now && InRange(now)
    requires Answers(rows, key, Cutoff(now), found)
    ensures found.None? ==> forall i :: 0 <= i < |rows| ==> !Live(rows[i], key, now)
    ensures found.Some? ==>
              && found.value in rows && Live(found.value, key, now)
              && forall i :: 0 <= i < |rows| && rows[i].inst.requestKey == Some(key) ==>
                   Millis(rows[i].inst.createdAt) <= Millis(found.value.inst.createdAt)
  {
    forall i | 0 <= i < |rows|
      ensures Live(rows[i], key, now) <==> Matches(rows[i], key, Cutoff(now))
    {
      MatchesByMillis(rows[i], key, now);
    }
    if found.Some? {
      var r := found.value;
      forall i | 0 <= i < |rows| && rows[i].inst.requestKey == Some(key)
        ensures Millis(rows[i].inst.createdAt) <= Millis(r.inst.createdAt)
      {
        MatchesByMillis(rows[i], key, now);
        StorageOrder(r.inst.createdAt, rows[i].inst.createdAt);
      }
    }
  }

  /** A deduplicated answer is a row of that key younger than the window, and no row of that key is younger. */
  lemma DeduplicatedIsNewest(rows: seq<Row>, daily: map<string, nat>, clock: nat, e: Entry)
    requires PastAndValid(rows, clock) && clock <= e.now && InRange(e.now)
    requires Issued(e.req, e.now, e.datePart, rows, daily, e.rows, e.daily, e.result) && e.result.Deduplicated?
    ensures exists k :: 0 <= k < |rows| && rows[k].inst == e.result.inst && Live(rows[k], e.req.requestKey.value, e.now)
    ensures forall i :: 0 <= i < |rows| && rows[i].inst.requestKey == e.req.requestKey ==>
              Millis(rows[i].inst.createdAt) <= Millis(e.result.inst.createdAt)
  {
    var key := e.req.requestKey.value;
    var row: Row :| row.inst == e.result.inst && Answers(rows, key, Cutoff(e.now), Some(row));
    AnswersByMillis(rows, clock, key, e.now, Some(row));
  }

  /** A request that does not fail is deduplicated exactly when a live row of its key is there. */
  lemma DeduplicatedIffLive(rows: seq<Row>, daily: map<string, nat>, clock: nat, e: Entry)
    requires PastAndValid(rows, clock) && clock <= e.now && InRange(e.now)
    requires Issued(e.req, e.now, e.datePart, rows, daily, e.rows, e.daily, e.result) && !e.result.Failed?
    ensures e.result.Deduplicated? <==>
            e.req.requestKey.Some? && exists i :: 0 <= i < |rows| && Live(rows[i], e.req.requestKey.value, e.now)
  {
    if e.result.Deduplicated? {
      DeduplicatedIsNewest(rows, daily, clock, e);
    } else if e.req.requestKey.Some? {
      AnswersByMillis(rows, clock, e.req.requestKey.value, e.now, None);
    }
  }
}
