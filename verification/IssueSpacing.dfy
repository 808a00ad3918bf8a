/**
 When interleaved calls keep the rows of one key the window apart: exactly as long as no insert finds a live row of its
 key, and in particular as long as calls with one key do not overlap between their lookup and their insert.
 */
module IssueSpacing {
  import opened Basics
  import opened StorageTime
  import opened Instances
  import opened IssueInterleavings

  /** No row of the key is younger than the window. */
  predicate NoneLive(rows: seq<Row>, key: Option<string>, now: nat) {
    key.Some? ==> forall i :: 0 <= i < |rows| ==> !Live(rows[i], key.value, now)
  }

  /** One more row keeps the rows apart exactly when none of its key was live. */
  lemma SpacedSnocIff(rows: seq<Row>, r: Row)
    ensures Spaced(rows + [r]) <==> Spaced(rows) && NoneLive(rows, r.inst.requestKey, r.inst.createdAt)
  {
    var all := rows + [r];
    if Spaced(all) {
      forall i, j | 0 <= i < j < |rows| && SameKey(rows[i], rows[j])
        ensures Millis(rows[i].inst.createdAt) + 300_000 <= Millis(rows[j].inst.createdAt)
      {
        assert SameKey(all[i], all[j]);
      }
      forall i | 0 <= i < |rows| && r.inst.requestKey.Some?
        ensures !Live(rows[i], r.inst.requestKey.value, r.inst.createdAt)
      {
        assert all[|rows|] == r && all[i] == rows[i];
        assert SameKey(all[i], all[|rows|]) <==> rows[i].inst.requestKey == r.inst.requestKey;
      }
    }
    if Spaced(rows) && NoneLive(rows, r.inst.requestKey, r.inst.createdAt) {
      forall i, j | 0 <= i < j < |all| && SameKey(all[i], all[j])
        ensures Millis(all[i].inst.createdAt) + 300_000 <= Millis(all[j].inst.createdAt)
      {
        if j < |rows| {
          assert SameKey(rows[i], rows[j]);
        } else {
          assert !Live(rows[i], r.inst.requestKey.value, r.inst.createdAt);
        }
      }
    }
  }

  /** The step stores a row. */
  predicate Adds(s: System, a: Action)
    requires a.call < |s.calls|
  {
    var c := s.calls[a.call];
    c.pc.Inserting? && c.sequence.Some? && a.fault != StoreFault && !HasId(s.rows, Proposal(c, c.pc.tail).id)
  }

  /** The step stores no row, or one whose key had no live row at that moment. */
  predicate AddsApart(s: System, a: Action)
    requires a.call < |s.calls|
  {
    var c := s.calls[a.call];
    Adds(s, a) ==> NoneLive(s.rows, c.req.requestKey, c.now)
  }

  lemma StepSpacedIff(s: System, a: Action)
    requires Legal(s, a)
    ensures Spaced(Next(s, a).rows) <==> Spaced(s.rows) && AddsApart(s, a)
  {
    var c := s.calls[a.call];
    if Adds(s, a) { SpacedSnocIff(s.rows, Row(Proposal(c, c.pc.tail), c.stamp)); }
  }

  ghost predicate EveryInsertApart(s: System, actions: seq<Action>)
    decreases |actions|
  {
    actions == [] ||
    (Legal(s, actions[0]) && AddsApart(s, actions[0]) && EveryInsertApart(Next(s, actions[0]), actions[1..]))
  }

  /** Over a whole interleaving the rows of one key stay apart exactly when every insert found none of its key live. */
  lemma {:induction false} RunSpacedIff(s: System, actions: seq<Action>, t: System)
    requires Reaches(s, actions, t)
    ensures Spaced(t.rows) <==> Spaced(s.rows) && EveryInsertApart(s, actions)
    decreases |actions|
  {
    if actions != [] {
      StepSpacedIff(s, actions[0]);
      RunSpacedIff(Next(s, actions[0]), actions[1..], t);
    }
  }

  /** Between a lookup that found nothing and the end of the call. */
  predicate Busy(c: Call) {
    c.req.requestKey.Some? && (c.pc.Allocate? || c.pc.Inserting? || c.pc.Rechecking?)
  }

  /** No two calls with one key are at it at once. Calls with other keys, or with none, may be. */
  predicate NoOverlap(calls: seq<Call>) {
    forall i, j :: 0 <= i < j < |calls| && Busy(calls[i]) && Busy(calls[j]) ==>
      calls[i].req.requestKey != calls[j].req.requestKey
  }

  ghost predicate NeverOverlap(s: System, actions: seq<Action>)
    decreases |actions|
  {
    && NoOverlap(s.calls)
    && (actions != [] ==> Legal(s, actions[0]) && NeverOverlap(Next(s, actions[0]), actions[1..]))
  }

  predicate ValidRows(rows: seq<Row>) {
    forall i :: 0 <= i < |rows| ==> rows[i] == Stored(rows[i].inst) && Millis(rows[i].inst.createdAt) < YEAR_10000
  }

  predicate CallClear(rows: seq<Row>, c: Call) {
    InRange(c.now) && c.stamp == Storage(c.now) && (Busy(c) ==> NoneLive(rows, c.req.requestKey, c.now))
  }

  /** What a lookup that found nothing has seen is still so. */
  predicate Clear(s: System) {
    ValidRows(s.rows) && forall i :: 0 <= i < |s.calls| ==> CallClear(s.rows, s.calls[i])
  }

  lemma LookupSeesNone(rows: seq<Row>, key: string, now: nat)
    requires ValidRows(rows) && InRange(now) && Answers(rows, key, Cutoff(now), None)
    ensures NoneLive(rows, Some(key), now)
  {
    forall i | 0 <= i < |rows| ensures !Live(rows[i], key, now) {
      MatchesByMillis(rows[i], key, now);
    }
  }

  /** A row of one key does not concern a call with another. */
  lemma RowAside(rows: seq<Row>, r: Row, c: Call)
    requires CallClear(rows, c) && (Busy(c) ==> r.inst.requestKey != c.req.requestKey)
    ensures CallClear(rows + [r], c)
  {
    if Busy(c) {
      forall i | 0 <= i < |rows| + 1 ensures !Live((rows + [r])[i], c.req.requestKey.value, c.now) {
        if i < |rows| { assert !Live(rows[i], c.req.requestKey.value, c.now); }
      }
    }
  }

  lemma AddingStepStaysClear(s: System, a: Action)
    requires Legal(s, a) && Clear(s) && NoOverlap(s.calls) && Adds(s, a)
    ensures Clear(Next(s, a))
  {
    var c, t := s.calls[a.call], Next(s, a);
    var r := Row(Proposal(c, c.pc.tail), c.stamp);
    assert CallClear(s.rows, c);
    forall i | 0 <= i < |t.calls| ensures CallClear(t.rows, t.calls[i]) {
      if i != a.call {
        assert CallClear(s.rows, s.calls[i]);
        RowAside(s.rows, r, s.calls[i]);
      }
    }
  }

  /** A call becomes busy only by a lookup that finds nothing. */
  lemma QuietNext(s: System, a: Action)
    requires Legal(s, a) && !Adds(s, a)
    ensures var c, t := s.calls[a.call], Next(s, a);
      && t.rows == s.rows && |t.calls| == |s.calls|
      && (forall i :: 0 <= i < |s.calls| && i != a.call ==> t.calls[i] == s.calls[i])
      && var d := t.calls[a.call];
         && d.req == c.req && d.now == c.now && d.stamp == c.stamp
         && (Busy(d) ==> Busy(c) || (c.pc.Lookup? && a.found.None?))
  {
  }

  /** The call that moves without storing a row is clear afterwards. */
  lemma MoverStaysClear(rows: seq<Row>, c: Call, d: Call)
    requires ValidRows(rows) && CallClear(rows, c) && d.req == c.req && d.now == c.now && d.stamp == c.stamp
    requires Busy(d) && !Busy(c) ==> Answers(rows, c.req.requestKey.value, Cutoff(c.now), None)
    ensures CallClear(rows, d)
  {
    if Busy(d) && !Busy(c) { LookupSeesNone(rows, c.req.requestKey.value, c.now); }
  }

  lemma QuietStepStaysClear(s: System, a: Action)
    requires Legal(s, a) && Clear(s) && !Adds(s, a)
    ensures Clear(Next(s, a))
  {
    var t := Next(s, a);
    QuietNext(s, a);
    assert CallClear(s.rows, s.calls[a.call]);
    MoverStaysClear(s.rows, s.calls[a.call], t.calls[a.call]);
    forall i | 0 <= i < |t.calls| ensures CallClear(t.rows, t.calls[i]) {
      if i != a.call { assert CallClear(s.rows, s.calls[i]); }
    }
  }

  lemma {:induction false} ClearRunStaysSpaced(s: System, actions: seq<Action>, t: System)
    requires Clear(s) && Spaced(s.rows) && Reaches(s, actions, t) && NeverOverlap(s, actions)
    ensures Spaced(t.rows)
    decreases |actions|
  {
    if actions != [] {
      var a := actions[0];
      assert CallClear(s.rows, s.calls[a.call]);
      StepSpacedIff(s, a);
      if Adds(s, a) { AddingStepStaysClear(s, a); } else { QuietStepStaysClear(s, a); }
      ClearRunStaysSpaced(Next(s, a), actions[1..], t);
    }
  }

  /**
   Any number of calls at once, in any interleaving in which calls with one key do not overlap between lookup and
   insert, keeps the rows of each key the window apart.
   */
  lemma NonOverlappingStaySpaced(s: System, actions: seq<Action>, t: System)
    requires Starting(s) && ValidRows(s.rows) && Spaced(s.rows)
    requires Reaches(s, actions, t) && NeverOverlap(s, actions)
    ensures Spaced(t.rows)
  {
    ClearRunStaysSpaced(s, actions, t);
  }
}
