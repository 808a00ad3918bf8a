/** What an issued instance is, how its identifier is written and which rows a duplicate request matches. */
module Instances {
  import opened Basics
  import opened Ordering
  import opened StorageTime

  const SEQUENCE_PAD_WIDTH := 4
  const RANDOM_HEX_DIGITS := 6
  const COLLISION_RETRIES := 3
  const SEQUENCE_LIMIT := 99999999
  const DEDUP_WINDOW := 300_000 * NANOS_PER_MILLI

  datatype Request = Request(requester: string, kind: string, requestKey: Option<string>, labelText: Option<string>,
                             ttlSeconds: nat)

  datatype Instance = Instance(id: string, requester: string, kind: string, status: string,
                               requestKey: Option<string>, labelText: Option<string>, ttlSeconds: nat,
                               createdAt: nat, expiresAt: nat)

  /** One row of spawn_instance: its created_at column holds text. */
  datatype Row = Row(inst: Instance, created: string)

  function Stored(inst: Instance): Row { Row(inst, Storage(inst.createdAt)) }

  datatype PublicInstance = PublicInstance(id: string, status: string, kind: string, requester: string,
                                           createdAt: nat, labelText: Option<string>, deduplicated: bool)

  function Public(i: Instance, deduplicated: bool): PublicInstance {
    PublicInstance(i.id, i.status, i.kind, i.requester, i.createdAt, i.labelText, deduplicated)
  }

  /** What a caller is told, and by which path. */
  datatype Result = Failed | Deduplicated(inst: Instance) | Fresh(inst: Instance)

  /** The last number of a day that was handed out. */
  function LastSeq(daily: map<string, nat>, datePart: string): nat {
    if datePart in daily then daily[datePart] else 0
  }

  function Identifier(datePart: string, sequence: nat, tail: string): string {
    "spwn_" + datePart + "_" + Padded(SEQUENCE_PAD_WIDTH, sequence) + tail
  }

  function NewInstance(req: Request, id: string, now: nat): Instance {
    Instance(id, req.requester, req.kind, "created", req.requestKey, req.labelText, req.ttlSeconds,
             now, now + req.ttlSeconds * 1_000_000_000)
  }

  predicate IsTail(tail: string) {
    |tail| == RANDOM_HEX_DIGITS && forall i :: 0 <= i < |tail| ==> IsDigit(tail[i]) || 'a' <= tail[i] <= 'f'
  }

  /** The random part of an identifier. */
  type Tail = t: string | IsTail(t) witness "000000"

  predicate IsDate(d: string) { |d| == 8 && AllDigits(d) }

  /** Different days, sequences or tails never spell the same identifier, however wide the sequence grows. */
  lemma IdentifierInjective(d: string, m: nat, t: string, e: string, n: nat, u: string)
    requires IsDate(d) && IsDate(e) && IsTail(t) && IsTail(u)
    requires Identifier(d, m, t) == Identifier(e, n, u)
    ensures d == e && m == n && t == u
  {
    var x, y := Identifier(d, m, t), Identifier(e, n, u);
    var p, q := Padded(SEQUENCE_PAD_WIDTH, m), Padded(SEQUENCE_PAD_WIDTH, n);
    assert |"spwn_"| == 5;
    assert |x| == 5 + 8 + 1 + |p| + 6 && |y| == 5 + 8 + 1 + |q| + 6;
    assert x[5..13] == d && y[5..13] == e;
    assert x[14..14 + |p|] == p && y[14..14 + |q|] == q;
    assert x[14 + |p|..] == t && y[14 + |q|..] == u;
    PaddedNumeral(SEQUENCE_PAD_WIDTH, m);
    PaddedNumeral(SEQUENCE_PAD_WIDTH, n);
  }

  /** What an identifier spells: the prefix, the day, the sequence in at least four digits, and the random tail. */
  lemma IdentifierSpells(d: string, n: nat, t: string)
    requires IsDate(d) && IsTail(t)
    ensures var id := Identifier(d, n, t);
      && |id| >= 24 && id[..5] == "spwn_" && id[5..13] == d && id[13] == '_' && id[|id| - 6..] == t
      && AllDigits(id[14..|id| - 6]) && Numeral(id[14..|id| - 6]) == n
      && (n < 10000 ==> |id| == 24)
  {
    var id, p := Identifier(d, n, t), Padded(4, n);
    assert |id| == 14 + |p| + 6 && id[14..|id| - 6] == p;
    PaddedNumeral(4, n);
    DecimalWidth(n, 4);
    assert Pow10(4) == 10000 by {
      assert Pow10(2) == 10 * Pow10(1) && Pow10(1) == 10 * Pow10(0);
    }
  }

  // The deduplication window.

  /** The clock stands where the stored strings are fixed-width and the window does not reach before year 0. */
  predicate InRange(now: nat) { DEDUP_WINDOW <= now && Millis(now) < YEAR_10000 }

  /** The text the lookup compares the column with. */
  function Cutoff(now: nat): string
    requires DEDUP_WINDOW <= now
  {
    Storage(now - DEDUP_WINDOW)
  }

  /** WHERE request_key = ? AND created_at > ? */
  predicate Matches(r: Row, key: string, cutoff: string) {
    r.inst.requestKey == Some(key) && Less(cutoff, r.created)
  }

  /** ORDER BY created_at DESC LIMIT 1: no answer when nothing matches, otherwise a match no match is newer than. */
  ghost predicate Answers(rows: seq<Row>, key: string, cutoff: string, found: Option<Row>) {
    match found
    case None => forall i :: 0 <= i < |rows| ==> !Matches(rows[i], key, cutoff)
    case Some(r) =>
      && r in rows && Matches(r, key, cutoff)
      && forall i :: 0 <= i < |rows| && Matches(rows[i], key, cutoff) ==> !Less(r.created, rows[i].created)
  }

  predicate HasId(rows: seq<Row>, id: string) { exists i :: 0 <= i < |rows| && rows[i].inst.id == id }

  /** Inside the representable years the string comparison is a comparison of milliseconds. */
  lemma CutoffByMillis(t: nat, now: nat)
    requires InRange(now) && Millis(t) < YEAR_10000
    ensures Less(Cutoff(now), Storage(t)) <==> Millis(now) < Millis(t) + 300_000
  {
    WindowMillis(now);
    StorageOrder(now - DEDUP_WINDOW, t);
  }

  lemma WindowMillis(now: nat)
    requires DEDUP_WINDOW <= now
    ensures Millis(now - DEDUP_WINDOW) == Millis(now) - 300_000
  {
  }

  lemma MatchesByMillis(r: Row, key: string, now: nat)
    requires InRange(now) && Millis(r.inst.createdAt) < YEAR_10000 && r == Stored(r.inst)
    ensures Matches(r, key, Cutoff(now))
            <==> r.inst.requestKey == Some(key) && Millis(now) < Millis(r.inst.createdAt) + 300_000
  {
    CutoffByMillis(r.inst.createdAt, now);
  }

  predicate SameKey(a: Row, b: Row) { a.inst.requestKey.Some? && a.inst.requestKey == b.inst.requestKey }

  /** Rows with the same request key are at least the window apart. */
  predicate Spaced(rows: seq<Row>) {
    forall i, j :: 0 <= i < j < |rows| && SameKey(rows[i], rows[j]) ==>
      Millis(rows[i].inst.createdAt) + 300_000 <= Millis(rows[j].inst.createdAt)
  }

  /** A row of the key younger than the window. */
  predicate Live(r: Row, key: string, now: nat) {
    r.inst.requestKey == Some(key) && Millis(now) < Millis(r.inst.createdAt) + 300_000
  }
}
