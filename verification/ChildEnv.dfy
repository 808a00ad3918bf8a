/** The lines of the finished environment block: what a child finds in it. */
module ChildEnv {
  import opened Basics
  import opened Ordering
  import opened EnvMerge

  /** The block a child is given. */
  ghost predicate BlockOf(block: seq<string>, inherited: seq<string>, userEnv: map<string, string>,
                          key: string -> string)
  {
    Shows(block, Applied(Writes(inherited, FORCED, userEnv), key))
  }

  lemma SlotShows(block: seq<string>, slots: seq<Slot>, i: nat)
    requires Shows(block, slots) && i < |slots|
    ensures Render(slots[i]) in block
  {
    assert block[i] == Render(slots[i]);
  }

  /** No name of the map means the variable. */
  predicate Silent(m: map<string, string>, k: string, key: string -> string) { forall o :: o in m ==> key(o) != k }

  lemma SilentBindsNot(m: map<string, string>, k: string, key: string -> string)
    requires Silent(m, k, key)
    ensures !Binds(MapWrites(m), k, key)
  {
    MapWritesAre(m);
  }

  /** The user's entry for a variable, the last in sorting order if there are several spellings of it. */
  lemma UserWins(block: seq<string>, inherited: seq<string>, userEnv: map<string, string>, key: string -> string,
                 n: string)
    requires BlockOf(block, inherited, userEnv, key)
    requires n in userEnv && forall o :: o in userEnv && key(o) == key(n) ==> o == n || Less(o, n)
    ensures n + "=" + userEnv[n] in block
  {
    var slots := Applied(Writes(inherited, FORCED, userEnv), key);
    Priority(inherited, FORCED, userEnv, key(n), key);
    MapLast(userEnv, n, key);
    BindsPosition(slots, key(n), key);
    SlotShows(block, slots, Position(slots, key(n), key));
  }

  /** A child writes UTF-8 unless its user says otherwise, whatever is inherited. */
  lemma Utf8UnlessUser(block: seq<string>, inherited: seq<string>, userEnv: map<string, string>, key: string -> string)
    requires BlockOf(block, inherited, userEnv, key) && key("PYTHONUTF8") != key("PYTHONIOENCODING")
    requires Silent(userEnv, key("PYTHONUTF8"), key)
    ensures "PYTHONUTF8=1" in block
  {
    ForcedShows(block, inherited, userEnv, key, "PYTHONUTF8");
    ForcedLines();
  }

  lemma EncodingUnlessUser(block: seq<string>, inherited: seq<string>, userEnv: map<string, string>,
                           key: string -> string)
    requires BlockOf(block, inherited, userEnv, key) && key("PYTHONUTF8") != key("PYTHONIOENCODING")
    requires Silent(userEnv, key("PYTHONIOENCODING"), key)
    ensures "PYTHONIOENCODING=utf-8" in block
  {
    ForcedShows(block, inherited, userEnv, key, "PYTHONIOENCODING");
    ForcedLines();
  }

  lemma ForcedLines()
    ensures "PYTHONUTF8" + "=" + FORCED["PYTHONUTF8"] == "PYTHONUTF8=1"
    ensures "PYTHONIOENCODING" + "=" + FORCED["PYTHONIOENCODING"] == "PYTHONIOENCODING=utf-8"
  {
  }

  lemma ForcedShows(block: seq<string>, inherited: seq<string>, userEnv: map<string, string>, key: string -> string,
                    n: string)
    requires BlockOf(block, inherited, userEnv, key) && n in FORCED && Silent(userEnv, key(n), key)
    requires forall o :: o in FORCED && key(o) == key(n) ==> o == n
    ensures n + "=" + FORCED[n] in block
  {
    var slots := Applied(Writes(inherited, FORCED, userEnv), key);
    Priority(inherited, FORCED, userEnv, key(n), key);
    SilentBindsNot(userEnv, key(n), key);
    MapLast(FORCED, n, key);
    BindsPosition(slots, key(n), key);
    SlotShows(block, slots, Position(slots, key(n), key));
  }

  /** An inherited variable that nothing overrides is passed on as it was, letter by letter. */
  lemma InheritedPassesOn(block: seq<string>, inherited: seq<string>, userEnv: map<string, string>,
                          key: string -> string, i: nat)
    requires BlockOf(block, inherited, userEnv, key) && i < |inherited| && Parse(inherited[i]).Named?
    requires var k := key(Parse(inherited[i]).name);
      && Silent(userEnv, k, key) && Silent(FORCED, k, key)
      && forall j :: i < j < |inherited| ==> !HasKey(Parse(inherited[j]), k, key)
    ensures inherited[i] in block
  {
    var k := key(Parse(inherited[i]).name);
    var slots := Applied(Writes(inherited, FORCED, userEnv), key);
    Priority(inherited, FORCED, userEnv, k, key);
    SilentBindsNot(userEnv, k, key);
    SilentBindsNot(FORCED, k, key);
    LastAt(Parsed(inherited), i, k, key);
    BindsPosition(slots, k, key);
    SlotShows(block, slots, Position(slots, k, key));
    ParseRender(inherited[i], Raw(""));
  }

  /** An inherited entry without a name is passed on too. */
  lemma NamelessPassesOn(block: seq<string>, inherited: seq<string>, userEnv: map<string, string>,
                         key: string -> string, i: nat)
    requires BlockOf(block, inherited, userEnv, key) && i < |inherited| && Parse(inherited[i]).Raw?
    ensures inherited[i] in block
  {
    var w := Writes(inherited, FORCED, userEnv);
    AppliedIsMerged(w, key);
    assert w[i] == Parsed(inherited)[i];
    RawStays(w, |w|, i, key);
    var slots := Merged(w, |w|, key);
    var p :| 0 <= p < |slots| && slots[p] == w[i];
    SlotShows(block, slots, p);
    ParseRender(inherited[i], Raw(""));
  }

  lemma {:induction false} RawStays(writes: seq<Slot>, n: nat, i: nat, key: string -> string)
    requires i < n <= |writes| && writes[i].Raw?
    ensures writes[i] in Merged(writes, n, key)
  {
    MergedStep(writes, n, key);
    if i < n - 1 { RawStays(writes, n - 1, i, key); }
  }
}
