/** What each of many interleaved calls is answered, and why a call fails. */
module IssueOutcomes {
  import opened Basics
  import opened StorageTime
  import opened Instances
  import opened IssueInterleavings

  /** The instance a request asks for, under some identifier. */
  predicate AskedFor(inst: Instance, req: Request, now: nat) {
    && inst.kind == req.kind && inst.requester == req.requester && inst.labelText == req.labelText
    && inst.requestKey == req.requestKey && inst.ttlSeconds == req.ttlSeconds && inst.status == "created"
    && inst.createdAt == now && inst.expiresAt == now + req.ttlSeconds * 1_000_000_000
  }

  predicate HasKeyed(rows: seq<Row>, inst: Instance, key: Option<string>) {
    key.Some? && inst.requestKey == key && HasRow(rows, inst)
  }

  /**
   A call to which nothing bad happened fails only when the day's numbers are used up or four identifiers in a row were
   taken. A deduplicated answer is a stored row of the key, a fresh one the stored instance that was asked for.
   */
  predicate Explained(c: Call, rows: seq<Row>) {
    match c.pc
    case Finished(Failed) => c.sequence.Some? && (c.sequence.value > 99999999 || c.inserts == 4)
    case Finished(Deduplicated(inst)) => HasKeyed(rows, inst, c.req.requestKey)
    case Finished(Fresh(inst)) => AskedFor(inst, c.req, c.now) && HasRow(rows, inst)
    case Rechecking(_, _) => c.req.requestKey.Some?
    case _ => true
  }

  /** A call asks until it is answered, and its rows stay. */
  predicate Answering(c: Call, d: Call) { d.req == c.req && d.now == c.now && (c.pc.Finished? ==> d == c) }

  lemma StepAnswers(s: System, a: Action, i: nat)
    requires Legal(s, a) && i < |s.calls|
    ensures var t := Next(s, a); |t.calls| == |s.calls| && Answering(s.calls[i], t.calls[i]) && s.rows <= t.rows
  {
  }

  lemma RowStays(rows: seq<Row>, more: seq<Row>, inst: Instance)
    requires rows <= more && HasRow(rows, inst)
    ensures HasRow(more, inst)
  {
    var k :| 0 <= k < |rows| && rows[k].inst == inst;
    assert more[k] == rows[k];
  }

  lemma FoundIsKeyed(s: System, a: Action)
    requires Legal(s, a) && a.found.Some? && s.calls[a.call].req.requestKey.Some?
    requires s.calls[a.call].pc.Lookup? || s.calls[a.call].pc.Rechecking?
    ensures HasKeyed(s.rows, a.found.value.inst, s.calls[a.call].req.requestKey)
  {
    var k :| 0 <= k < |s.rows| && s.rows[k] == a.found.value;
  }

  lemma OwnStepExplains(s: System, a: Action)
    requires Legal(s, a) && a.fault == NoFault && CallOk(s.calls[a.call], s.daily)
    requires !s.calls[a.call].pc.Finished? && Explained(s.calls[a.call], s.rows)
    ensures Explained(Next(s, a).calls[a.call], Next(s, a).rows)
  {
    var c := s.calls[a.call];
    match c.pc
    case Inserting(_, tail) =>
      if !HasId(s.rows, Proposal(c, tail).id) {
        assert Next(s, a).rows[|s.rows|].inst == Proposal(c, tail);
      }
    case _ =>
      if a.found.Some? && c.req.requestKey.Some? && !c.pc.Allocate? { FoundIsKeyed(s, a); }
  }

  lemma StepExplains(s: System, a: Action, i: nat)
    requires Legal(s, a) && i < |s.calls| && CallOk(s.calls[i], s.daily) && Explained(s.calls[i], s.rows)
    requires a.call == i ==> a.fault == NoFault
    ensures i < |Next(s, a).calls| && Explained(Next(s, a).calls[i], Next(s, a).rows)
  {
    StepAnswers(s, a, i);
    if s.calls[i].pc.Finished? {
      var r := s.calls[i].pc.result;
      if !r.Failed? { RowStays(s.rows, Next(s, a).rows, r.inst); }
    } else if a.call == i {
      OwnStepExplains(s, a);
    }
  }

  /** Nothing goes wrong for the call. */
  predicate Spared(actions: seq<Action>, i: nat) {
    forall k :: 0 <= k < |actions| && actions[k].call == i ==> actions[k].fault == NoFault
  }

  lemma {:induction false} RunExplains(s: System, actions: seq<Action>, t: System, i: nat, initial: nat)
    requires Inv(s, initial) && Reaches(s, actions, t) && i < |s.calls|
    requires Explained(s.calls[i], s.rows) && Spared(actions, i)
    ensures i < |t.calls| && Explained(t.calls[i], t.rows)
    ensures t.calls[i].req == s.calls[i].req && t.calls[i].now == s.calls[i].now
    decreases |actions|
  {
    if actions != [] {
      assert CallOk(s.calls[i], s.daily);
      StepExplains(s, actions[0], i);
      StepAnswers(s, actions[0], i);
      StepKeepsInv(s, actions[0], initial);
      assert Spared(actions[1..], i) by {
        assert forall k :: 0 <= k < |actions[1..]| ==> actions[1..][k] == actions[k + 1];
      }
      RunExplains(Next(s, actions[0]), actions[1..], t, i, initial);
    }
  }

  /** In every interleaving, whatever happens to the others, a call that is spared is answered as explained. */
  lemma AnswersAreExplained(s: System, actions: seq<Action>, t: System, i: nat)
    requires Starting(s) && Reaches(s, actions, t) && i < |s.calls| && Spared(actions, i)
    ensures i < |t.calls| && Explained(t.calls[i], t.rows)
    ensures t.calls[i].req == s.calls[i].req && t.calls[i].now == s.calls[i].now
  {
    NoneFresh(s.calls);
    assert Begun(s.calls[i]);
    RunExplains(s, actions, t, i, |s.rows|);
  }
}
