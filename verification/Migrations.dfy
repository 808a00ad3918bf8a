/**
 Applying the embedded migration scripts: each once, in order, one transaction a script, over any number of starts.
 */
module Migrations {
  import opened Basics
  import opened Ordering
  import opened SqlLexing
  import opened SqlSplitter
  import opened SqlCoverage
  import SqlVisible
  import SqlMarkers

  datatype Migration = Migration(name: string, text: string)

  /** The named files as scripts. */
  function ScriptsOf(files: map<string, string>, names: seq<string>): (scripts: seq<Migration>)
    requires forall k :: 0 <= k < |names| ==> names[k] in files
    ensures |scripts| == |names|
    ensures forall k :: 0 <= k < |names| ==> scripts[k] == Migration(names[k], files[names[k]])
  {
    if names == [] then []
    else
      var n := |names| - 1;
      ScriptsOf(files, names[..n]) + [Migration(names[n], files[names[n]])]
  }

  lemma SortedAreFiles(files: map<string, string>)
    ensures forall k :: 0 <= k < |Sorted(files.Keys)| ==> Sorted(files.Keys)[k] in files
    ensures forall n :: n in files ==> n in Sorted(files.Keys)
  {
    var names := Sorted(files.Keys);
    assert forall n :: n in names <==> n in Elements(names);
  }

  /** The embedded files as scripts, ascending by filename compared as strings. */
  ghost function Scripts(files: map<string, string>): seq<Migration> {
    SortedAreFiles(files);
    ScriptsOf(files, Sorted(files.Keys))
  }

  /** The filenames ascend, so in particular no two are the same. */
  predicate InFilenameOrder(scripts: seq<Migration>) {
    forall i, j :: 0 <= i < j < |scripts| ==> Less(scripts[i].name, scripts[j].name)
  }

  lemma ScriptsInOrder(files: map<string, string>)
    ensures InFilenameOrder(Scripts(files))
  {
    SortedAreFiles(files);
    var names := Sorted(files.Keys);
    var scripts := ScriptsOf(files, names);
    forall i, j | 0 <= i < j < |scripts| ensures Less(scripts[i].name, scripts[j].name) {
      assert Less(names[i], names[j]);
    }
  }

  lemma OrderIsDistinct(scripts: seq<Migration>)
    requires InFilenameOrder(scripts)
    ensures DistinctNames(scripts)
  {
    forall i, j | 0 <= i < j < |scripts| ensures scripts[i].name != scripts[j].name {
      LessIrreflexive(scripts[i].name);
      assert Less(scripts[i].name, scripts[j].name);
    }
  }

  const BOM: char := '\U{FEFF}'

  predicate HasBom(text: string) { text != "" && text[0] == BOM }

  predicate FileOk(files: map<string, string>, n: string, readOk: string -> bool) {
    n in files ==> readOk(n) && !HasBom(files[n])
  }

  predicate Readable(files: map<string, string>, readOk: string -> bool) {
    forall n :: n in files ==> FileOk(files, n, readOk)
  }

  /**
   Reads the scripts in the order they must be applied; a file that cannot be read or begins with a BOM fails it all.
   */
  method LoadScripts(files: map<string, string>, readOk: string -> bool) returns (loaded: Option<seq<Migration>>)
    ensures loaded == if Readable(files, readOk) then Some(Scripts(files)) else None
    ensures loaded.Some? <==> forall n :: n in files ==> readOk(n) && (files[n] != "" ==> files[n][0] != '\U{FEFF}')
    ensures loaded.Some? ==> forall m :: m in loaded.value <==> m.name in files && m.text == files[m.name]
  {
    var names := SortedKeys(files);
    SortedAreFiles(files);
    loaded := ReadAll(files, names, readOk);
    if loaded.Some? {
      AllRead(files, names, readOk);
      LoadedAreFiles(files);
    } else {
      assert exists k :: 0 <= k < |names| && !FileOk(files, names[k], readOk);
    }
  }

  lemma LoadedAreFiles(files: map<string, string>)
    ensures forall m :: m in Scripts(files) <==> m.name in files && m.text == files[m.name]
  {
    SortedAreFiles(files);
    var names, scripts := Sorted(files.Keys), Scripts(files);
    forall m: Migration | m.name in files && m.text == files[m.name] ensures m in scripts {
      var k :| 0 <= k < |names| && names[k] == m.name;
      assert scripts[k] == m;
    }
  }

  method ReadAll(files: map<string, string>, names: seq<string>, readOk: string -> bool)
    returns (loaded: Option<seq<Migration>>)
    requires forall k :: 0 <= k < |names| ==> names[k] in files
    ensures loaded.Some? <==> forall k :: 0 <= k < |names| ==> FileOk(files, names[k], readOk)
    ensures loaded.Some? ==> loaded.value == ScriptsOf(files, names)
  {
    var out := [];
    for i := 0 to |names|
      invariant out == ScriptsOf(files, names[..i])
      invariant forall k :: 0 <= k < i ==> FileOk(files, names[k], readOk)
    {
      if !FileOk(files, names[i], readOk) { return None; }
      assert names[..i + 1][..i] == names[..i];
      out := out + [Migration(names[i], files[names[i]])];
    }
    assert names[..|names|] == names;
    return Some(out);
  }

  lemma AllRead(files: map<string, string>, names: seq<string>, readOk: string -> bool)
    requires names == Sorted(files.Keys) && forall k :: 0 <= k < |names| ==> FileOk(files, names[k], readOk)
    ensures Readable(files, readOk)
  {
    SortedAreFiles(files);
    forall n | n in files ensures FileOk(files, n, readOk) {
      var k :| 0 <= k < |names| && names[k] == n;
    }
  }

  /** Where the database fails while one script is being applied. */
  datatype Fault = Healthy | BeginFails | StatementFails(index: nat) | RecordFails | CommitFails

  type Faults = string -> Fault

  /** How a script is cut into statements; the store cuts it with SqlSplitter.StatementsOf. */
  type Cut = string -> seq<string>

  /** A script goes through when it has something to execute and nothing fails before its commit. */
  predicate Applies(cut: Cut, m: Migration, fault: Fault) {
    && cut(m.text) != []
    && (fault == Healthy || (fault.StatementFails? && fault.index >= |cut(m.text)|))
  }

  function Pending(scripts: seq<Migration>, done: set<string>): seq<Migration> {
    if scripts == [] then []
    else
      var last := scripts[|scripts| - 1];
      Pending(scripts[..|scripts| - 1], done) + if last.name in done then [] else [last]
  }

  /** The first k go through and the next one, if there is one, does not. */
  predicate GoesThrough(cut: Cut, ms: seq<Migration>, faults: Faults, k: nat) {
    && k <= |ms|
    && (forall j :: 0 <= j < k ==> Applies(cut, ms[j], faults(ms[j].name)))
    && (k < |ms| ==> !Applies(cut, ms[k], faults(ms[k].name)))
  }

  /** The database: the history table and, in order, every statement that was ever committed. */
  datatype Db = Db(history: set<string>, executed: seq<string>)

  const EMPTY := Db({}, [])

  /** The database with one more script recorded. */
  function Recording(cut: Cut, db: Db, m: Migration): Db { Db(db.history + {m.name}, db.executed + cut(m.text)) }

  function RecordingAll(cut: Cut, db: Db, ms: seq<Migration>): Db {
    if ms == [] then db else Recording(cut, RecordingAll(cut, db, ms[..|ms| - 1]), ms[|ms| - 1])
  }

  /** One start: the scripts not recorded yet are applied until one fails. */
  ghost predicate Started(cut: Cut, before: Db, scripts: seq<Migration>, faults: Faults, after: Db, applied: nat) {
    var pending := Pending(scripts, before.history);
    && GoesThrough(cut, pending, faults, applied)
    && after == RecordingAll(cut, before, pending[..applied])
  }

  class Store {
    var history: set<string>
    var executed: seq<string>

    constructor ()
      ensures history == {} && executed == []
    {
      history, executed := {}, [];
    }

    function Contents(): Db
      reads this
    {
      Db(history, executed)
    }

    /** Statements and history row in one transaction: all of it is kept or none. */
    method ApplyOne(m: Migration, fault: Fault) returns (ok: bool)
      modifies this
      ensures ok <==> Applies(StatementsOf, m, fault)
      ensures ok <==> StatementsOf(m.text) != [] &&
                      match fault
                      case Healthy => true
                      case StatementFails(i) => i >= |StatementsOf(m.text)|
                      case _ => false
      ensures Contents() == if ok then Recording(StatementsOf, old(Contents()), m) else old(Contents())
    {
      var statements := Statements(m.text);
      if |statements| == 0 { return false; }
      if fault == BeginFails { return false; }
      var tx := executed;
      for i := 0 to |statements|
        invariant tx == executed + statements[..i]
        invariant fault.StatementFails? ==> i <= fault.index
        invariant Contents() == old(Contents())
      {
        if fault == StatementFails(i) { return false; }
        assert statements[..i + 1] == statements[..i] + [statements[i]];
        tx := tx + [statements[i]];
      }
      if fault == RecordFails { return false; }
      var recorded := history + {m.name};
      if fault == CommitFails { return false; }
      assert statements[..|statements|] == statements;
      executed, history := tx, recorded;
      return true;
    }

    /**
     Reads the scripts, makes sure of the history table, reads it and applies what it does not record. already counts
     the scripts recorded before, applied the ones applied now.
     */
    method Migrate(files: map<string, string>, readOk: string -> bool, tableOk: bool, historyOk: bool, faults: Faults)
      returns (already: nat, applied: nat, ok: bool)
      modifies this
      ensures var ready := Readable(files, readOk) && tableOk && historyOk;
        && StartedWith(StatementsOf, old(Contents()), Scripts(files), ready, faults, Contents(), applied)
        && already == (if ready then |old(history)| else 0)
        && (ok <==> ready && applied == |Pending(Scripts(files), old(history))|)
    {
      var loaded := LoadScripts(files, readOk);
      if loaded.None? || !tableOk || !historyOk { return 0, 0, false; }
      already := |history|;
      applied, ok := ApplyPending(loaded.value, faults);
    }

    method ApplyPending(scripts: seq<Migration>, faults: Faults) returns (applied: nat, ok: bool)
      modifies this
      ensures Started(StatementsOf, old(Contents()), scripts, faults, Contents(), applied)
      ensures ok <==> applied == |Pending(scripts, old(history))|
    {
      var done := history;
      applied := 0;
      for i := 0 to |scripts|
        invariant UpTo(StatementsOf, old(Contents()), scripts, faults, i, Contents(), applied)
      {
        var m := scripts[i];
        if m.name in done {
          SkipRecorded(StatementsOf, old(Contents()), scripts, faults, i, Contents(), applied);
          continue;
        }
        ghost var before := Contents();
        var applies := ApplyOne(m, faults(m.name));
        if !applies {
          StopHere(StatementsOf, old(Contents()), scripts, faults, i, before, applied);
          return applied, false;
        }
        TakeScript(StatementsOf, old(Contents()), scripts, faults, i, before, applied);
        applied := applied + 1;
      }
      AllTaken(StatementsOf, old(Contents()), scripts, faults, Contents(), applied);
      return applied, true;
    }
  }

  /** One start of a release, which may fail before it reaches the scripts. */
  ghost predicate StartedWith(cut: Cut, before: Db, scripts: seq<Migration>, ready: bool, faults: Faults,
                              after: Db, applied: nat)
  {
    if ready then Started(cut, before, scripts, faults, after, applied) else after == before && applied == 0
  }

  /** The first i scripts have been dealt with: recorded ones passed over, the others applied. */
  ghost predicate UpTo(cut: Cut, before: Db, scripts: seq<Migration>, faults: Faults, i: nat, now: Db, applied: nat) {
    && i <= |scripts|
    && var p := Pending(scripts[..i], before.history);
    && applied == |p|
    && (forall j :: 0 <= j < |p| ==> Applies(cut, p[j], faults(p[j].name)))
    && now == RecordingAll(cut, before, p)
  }

  lemma SkipRecorded(cut: Cut, before: Db, scripts: seq<Migration>, faults: Faults, i: nat, now: Db, applied: nat)
    requires UpTo(cut, before, scripts, faults, i, now, applied) && i < |scripts|
    requires scripts[i].name in before.history
    ensures UpTo(cut, before, scripts, faults, i + 1, now, applied)
  {
    PendingStep(scripts, before.history, i);
    var p := Pending(scripts[..i], before.history);
    assert p + [] == p;
  }

  lemma TakeScript(cut: Cut, before: Db, scripts: seq<Migration>, faults: Faults, i: nat, now: Db, applied: nat)
    requires UpTo(cut, before, scripts, faults, i, now, applied) && i < |scripts|
    requires scripts[i].name !in before.history && Applies(cut, scripts[i], faults(scripts[i].name))
    ensures UpTo(cut, before, scripts, faults, i + 1, Recording(cut, now, scripts[i]), applied + 1)
  {
    PendingStep(scripts, before.history, i);
    var p := Pending(scripts[..i], before.history);
    assert (p + [scripts[i]])[..|p|] == p;
  }

  lemma StopHere(cut: Cut, before: Db, scripts: seq<Migration>, faults: Faults, i: nat, now: Db, applied: nat)
    requires UpTo(cut, before, scripts, faults, i, now, applied) && i < |scripts|
    requires scripts[i].name !in before.history && !Applies(cut, scripts[i], faults(scripts[i].name))
    ensures Started(cut, before, scripts, faults, now, applied) && applied < |Pending(scripts, before.history)|
  {
    PendingStep(scripts, before.history, i);
    assert Pending(scripts, before.history)[..applied] == Pending(scripts[..i], before.history);
  }

  lemma AllTaken(cut: Cut, before: Db, scripts: seq<Migration>, faults: Faults, now: Db, applied: nat)
    requires UpTo(cut, before, scripts, faults, |scripts|, now, applied)
    ensures Started(cut, before, scripts, faults, now, applied) && applied == |Pending(scripts, before.history)|
  {
    assert scripts[..|scripts|] == scripts;
    var all := Pending(scripts, before.history);
    assert all[..applied] == all;
  }

  lemma PendingStep(scripts: seq<Migration>, done: set<string>, i: nat)
    requires i < |scripts|
    ensures var p := Pending(scripts[..i], done);
            && Pending(scripts[..i + 1], done) == p + (if scripts[i].name in done then [] else [scripts[i]])
            && p <= Pending(scripts, done)
            && (scripts[i].name !in done ==>
                  (|p| < |Pending(scripts, done)| && Pending(scripts, done)[|p|] == scripts[i]))
  {
    assert scripts[..i + 1][..i] == scripts[..i];
    PendingPrefix(scripts, done, i + 1);
  }

  lemma {:induction false} PendingPrefix(scripts: seq<Migration>, done: set<string>, k: nat)
    requires k <= |scripts|
    ensures Pending(scripts[..k], done) <= Pending(scripts, done)
    decreases |scripts|
  {
    if k < |scripts| {
      var n := |scripts| - 1;
      assert scripts[..n][..k] == scripts[..k];
      PendingPrefix(scripts[..n], done, k);
    } else {
      assert scripts[..k] == scripts;
    }
  }

  lemma {:induction false} RecordingConcat(cut: Cut, db: Db, a: seq<Migration>, b: seq<Migration>)
    ensures RecordingAll(cut, RecordingAll(cut, db, a), b) == RecordingAll(cut, db, a + b)
  {
    if b == [] {
      assert a + b == a;
    } else {
      var n := |b| - 1;
      RecordingConcat(cut, db, a, b[..n]);
      assert (a + b)[..|a| + n] == a + b[..n] && (a + b)[|a| + n] == b[n];
    }
  }

  function Pieces(cut: Cut, ms: seq<Migration>): seq<seq<string>> {
    seq(|ms|, i requires 0 <= i < |ms| => cut(ms[i].text))
  }

  /** Recording scripts executes their statements, script after script, and records their names. */
  lemma {:induction false} RecordingMeans(cut: Cut, db: Db, ms: seq<Migration>)
    ensures RecordingAll(cut, db, ms).executed == db.executed + Flatten(Pieces(cut, ms))
    ensures forall n :: n in RecordingAll(cut, db, ms).history <==>
              n in db.history || exists i :: 0 <= i < |ms| && ms[i].name == n
  {
    if ms == [] {
      assert Pieces(cut, ms) == [];
    } else {
      var k := |ms| - 1;
      RecordingMeans(cut, db, ms[..k]);
      assert Pieces(cut, ms) == Pieces(cut, ms[..k]) + [cut(ms[k].text)];
      FlattenSnoc(Pieces(cut, ms[..k]), cut(ms[k].text));
      var before := RecordingAll(cut, db, ms[..k]).history;
      forall n
        ensures n in before + {ms[k].name} <==> n in db.history || exists i :: 0 <= i < |ms| && ms[i].name == n
      {
        if i :| 0 <= i < |ms| && ms[i].name == n { assert i < k ==> ms[..k][i] == ms[i]; }
        if i :| 0 <= i < k && ms[..k][i].name == n { assert ms[i].name == n; }
      }
    }
  }

  // Many starts.

  predicate DistinctNames(scripts: seq<Migration>) {
    forall i, j :: 0 <= i < j < |scripts| ==> scripts[i].name != scripts[j].name
  }

  /** The history records the first k scripts and exactly their statements were executed, in order, each once. */
  ghost predicate Recorded(cut: Cut, db: Db, scripts: seq<Migration>, k: nat) {
    k <= |scripts| && db == RecordingAll(cut, EMPTY, scripts[..k])
  }

  /** The history holds the names of the first k scripts. */
  predicate RecordedNames(history: set<string>, scripts: seq<Migration>, k: nat) {
    k <= |scripts| && forall j :: 0 <= j < |scripts| ==> (scripts[j].name in history <==> j < k)
  }

  lemma RecordedKnowsNames(cut: Cut, db: Db, scripts: seq<Migration>, k: nat)
    requires DistinctNames(scripts) && Recorded(cut, db, scripts, k)
    ensures RecordedNames(db.history, scripts, k)
  {
    RecordingMeans(cut, EMPTY, scripts[..k]);
    forall j | 0 <= j < |scripts|
      ensures scripts[j].name in db.history <==> j < k
    {
      if j < k { assert scripts[..k][j].name == scripts[j].name; }
      if i :| 0 <= i < |scripts[..k]| && scripts[..k][i].name == scripts[j].name {
        assert scripts[i].name == scripts[j].name;
      }
    }
  }

  lemma {:induction false} PendingAfterPrefix(scripts: seq<Migration>, history: set<string>, k: nat, n: nat)
    requires RecordedNames(history, scripts, k) && n <= |scripts|
    ensures Pending(scripts[..n], history) == if n <= k then [] else scripts[k..n]
    decreases n
  {
    if n > 0 {
      assert scripts[..n][..n - 1] == scripts[..n - 1];
      PendingAfterPrefix(scripts, history, k, n - 1);
    }
  }

  lemma PendingIsRest(cut: Cut, db: Db, scripts: seq<Migration>, k: nat)
    requires DistinctNames(scripts) && Recorded(cut, db, scripts, k)
    ensures Pending(scripts, db.history) == scripts[k..]
  {
    RecordedKnowsNames(cut, db, scripts, k);
    PendingAfterPrefix(scripts, db.history, k, |scripts|);
    assert scripts[..|scripts|] == scripts && scripts[k..|scripts|] == scripts[k..];
  }

  lemma PrefixGrows<T>(s: seq<T>, k: nat, n: nat)
    requires k + n <= |s|
    ensures s[..k] + s[k..][..n] == s[..k + n]
  {
  }

  /** A start moves the recorded prefix forward and executes exactly the scripts it moves over. */
  lemma StartAdvances(cut: Cut, db: Db, scripts: seq<Migration>, faults: Faults, after: Db, applied: nat, k: nat)
    requires DistinctNames(scripts) && Recorded(cut, db, scripts, k)
    requires Started(cut, db, scripts, faults, after, applied)
    ensures Recorded(cut, after, scripts, k + applied)
    ensures GoesThrough(cut, scripts[k..], faults, applied)
  {
    PendingIsRest(cut, db, scripts, k);
    RecordingConcat(cut, EMPTY, scripts[..k], scripts[k..][..applied]);
    PrefixGrows(scripts, k, applied);
  }

  /** One start of a release; ready: it got as far as having its scripts and the history. */
  datatype Start = Start(scripts: seq<Migration>, ready: bool, faults: Faults, after: Db, applied: nat)

  /** Later releases only add scripts after the ones they were shipped with. */
  ghost predicate Starts(cut: Cut, db: Db, scripts: seq<Migration>, starts: seq<Start>)
    decreases |starts|
  {
    starts == [] ||
    var s := starts[0];
    && scripts <= s.scripts && InFilenameOrder(s.scripts)
    && StartedWith(cut, db, s.scripts, s.ready, s.faults, s.after, s.applied)
    && Starts(cut, s.after, s.scripts, starts[1..])
  }

  function FinalDb(db: Db, starts: seq<Start>): Db { if starts == [] then db else starts[|starts| - 1].after }

  function FinalScripts(scripts: seq<Migration>, starts: seq<Start>): seq<Migration> {
    if starts == [] then scripts else starts[|starts| - 1].scripts
  }

  lemma LastOfRest(db: Db, scripts: seq<Migration>, starts: seq<Start>)
    requires starts != []
    ensures FinalDb(db, starts) == FinalDb(starts[0].after, starts[1..])
    ensures FinalScripts(scripts, starts) == FinalScripts(starts[0].scripts, starts[1..])
  {
  }

  lemma OneStart(cut: Cut, db: Db, shipped: seq<Migration>, s: Start, k: nat)
    requires Recorded(cut, db, shipped, k) && shipped <= s.scripts && InFilenameOrder(s.scripts)
    requires StartedWith(cut, db, s.scripts, s.ready, s.faults, s.after, s.applied)
    ensures Recorded(cut, s.after, s.scripts, k + s.applied)
  {
    assert s.scripts[..k] == shipped[..k];
    OrderIsDistinct(s.scripts);
    if s.ready { StartAdvances(cut, db, s.scripts, s.faults, s.after, s.applied, k); }
  }

  /**
   Over any sequence of starts, each failing wherever it may, what was executed is the statements of the recorded
   scripts: whole scripts, in ascending order of their filenames, each once.
   */
  lemma {:induction false} HistoryIsWhatRan(cut: Cut, db: Db, scripts: seq<Migration>, starts: seq<Start>, k: nat)
    returns (n: nat)
    requires InFilenameOrder(scripts) && Recorded(cut, db, scripts, k) && Starts(cut, db, scripts, starts)
    ensures k <= n && Recorded(cut, FinalDb(db, starts), FinalScripts(scripts, starts), n)
    ensures InFilenameOrder(FinalScripts(scripts, starts))
    decreases |starts|
  {
    if starts == [] {
      n := k;
    } else {
      var s := starts[0];
      LastOfRest(db, scripts, starts);
      OneStart(cut, db, scripts, s, k);
      n := HistoryIsWhatRan(cut, s.after, s.scripts, starts[1..], k + s.applied);
    }
  }

  /** A start on which nothing fails leaves nothing to do, and the start after it executes nothing. */
  lemma HealthyStartCompletes(cut: Cut, db: Db, scripts: seq<Migration>, faults: Faults, after: Db, applied: nat,
                              k: nat, faults': Faults, again: Db, applied': nat)
    requires DistinctNames(scripts) && Recorded(cut, db, scripts, k)
    requires forall i :: 0 <= i < |scripts| ==> Applies(cut, scripts[i], faults(scripts[i].name))
    requires Started(cut, db, scripts, faults, after, applied) && Started(cut, after, scripts, faults', again, applied')
    ensures Recorded(cut, after, scripts, |scripts|)
    ensures applied' == 0 && again == after
  {
    StartAdvances(cut, db, scripts, faults, after, applied, k);
    assert forall i :: 0 <= i < |scripts[k..]| ==> scripts[k..][i] == scripts[k + i];
    StartAdvances(cut, after, scripts, faults', again, applied', |scripts|);
  }

  // The startup check.

  /** BrokenQuery: a query mapping is empty or names a file that cannot be read. */
  datatype AssetError =
    | BadName | Unreadable | ByteOrderMark | CompoundStatement | NothingToExecute | NoScripts | BrokenQuery

  /** ^\d{3}_.+\.sql$ */
  predicate ConventionalName(name: string) {
    && |name| >= 9
    && AllDigits(name[..3]) && name[3] == '_' && name[|name| - 4..] == ".sql"
    && '\n' !in name[4..|name| - 4]
  }

  ghost function Defect(m: Migration, readOk: string -> bool): Option<AssetError> {
    if !ConventionalName(m.name) then Some(BadName)
    else if !readOk(m.name) then Some(Unreadable)
    else if HasBom(m.text) then Some(ByteOrderMark)
    else if Compound(m.text) then Some(CompoundStatement)
    else if StatementsOf(m.text) == [] then Some(NothingToExecute)
    else None
  }

  method Inspect(m: Migration, readOk: string -> bool) returns (defect: Option<AssetError>)
    ensures defect == Defect(m, readOk) == Finding(readOk)(m)
  {
    if !ConventionalName(m.name) { return Some(BadName); }
    if !readOk(m.name) { return Some(Unreadable); }
    if HasBom(m.text) { return Some(ByteOrderMark); }
    var compound := BareBegin(m.text);
    if compound { return Some(CompoundStatement); }
    var statements := Statements(m.text);
    return if |statements| == 0 then Some(NothingToExecute) else None;
  }

  /** The first finding, script by script. */
  function FirstOf(finding: Migration -> Option<AssetError>, scripts: seq<Migration>): Option<AssetError> {
    if scripts == [] then None
    else if finding(scripts[0]).Some? then finding(scripts[0])
    else FirstOf(finding, scripts[1..])
  }

  ghost function Finding(readOk: string -> bool): Migration -> Option<AssetError> { m => Defect(m, readOk) }

  ghost function FirstDefect(scripts: seq<Migration>, readOk: string -> bool): Option<AssetError> {
    FirstOf(Finding(readOk), scripts)
  }

  /** Every script of the listing, and then the query mappings. */
  method Validate(scripts: seq<Migration>, readOk: string -> bool, queriesOk: bool)
    returns (defect: Option<AssetError>)
    ensures defect == if scripts == [] then Some(NoScripts)
                      else if FirstDefect(scripts, readOk).Some? then FirstDefect(scripts, readOk)
                      else if queriesOk then None else Some(BrokenQuery)
  {
    var seen := 0;
    ghost var finding := Finding(readOk);
    assert scripts[0..] == scripts;
    for i := 0 to |scripts|
      invariant seen == i
      invariant FirstDefect(scripts, readOk) == FirstOf(finding, scripts[i..])
    {
      defect := Inspect(scripts[i], readOk);
      NextFinding(finding, scripts, i);
      if defect.Some? { return; }
      seen := seen + 1;
    }
    if seen == 0 { return Some(NoScripts); }
    return if queriesOk then None else Some(BrokenQuery);
  }

  lemma NextFinding(finding: Migration -> Option<AssetError>, scripts: seq<Migration>, i: nat)
    requires i < |scripts|
    ensures FirstOf(finding, scripts[i..])
         == if finding(scripts[i]).Some? then finding(scripts[i]) else FirstOf(finding, scripts[i + 1..])
  {
    assert scripts[i..][1..] == scripts[i + 1..];
  }

  lemma {:induction false} FirstOfIsFirst(finding: Migration -> Option<AssetError>, scripts: seq<Migration>)
    ensures FirstOf(finding, scripts).None? <==> forall i :: 0 <= i < |scripts| ==> finding(scripts[i]).None?
    ensures FirstOf(finding, scripts).Some? ==>
              exists k :: 0 <= k < |scripts| && finding(scripts[k]) == FirstOf(finding, scripts)
                          && forall i :: 0 <= i < k ==> finding(scripts[i]).None?
  {
    if scripts != [] && finding(scripts[0]).None? {
      var rest := scripts[1..];
      FirstOfIsFirst(finding, rest);
      assert forall i :: 0 <= i < |rest| ==> rest[i] == scripts[i + 1];
      if FirstOf(finding, rest).Some? {
        var k :| 0 <= k < |rest| && finding(rest[k]) == FirstOf(finding, rest)
                 && forall i :: 0 <= i < k ==> finding(rest[i]).None?;
        assert finding(scripts[k + 1]) == FirstOf(finding, scripts);
        forall i | 0 <= i < k + 1 ensures finding(scripts[i]).None? {
          if i > 0 { assert scripts[i] == rest[i - 1]; }
        }
      }
    }
  }

  /** The check passes exactly when no script has a defect, and otherwise reports the first script that has one. */
  lemma FirstDefectIsFirst(scripts: seq<Migration>, readOk: string -> bool)
    ensures FirstDefect(scripts, readOk).None? <==> forall i :: 0 <= i < |scripts| ==> Defect(scripts[i], readOk).None?
    ensures FirstDefect(scripts, readOk).Some? ==>
              exists k :: 0 <= k < |scripts| && Defect(scripts[k], readOk) == FirstDefect(scripts, readOk)
                          && forall i :: 0 <= i < k ==> Defect(scripts[i], readOk).None?
  {
    FirstOfIsFirst(Finding(readOk), scripts);
    assert forall m :: Finding(readOk)(m) == Defect(m, readOk);
  }

  /** A piece of the script has something to execute: a character outside white space, quotes and comments. */
  ghost predicate SomethingIn(piece: string) { exists k: nat :: SqlVisible.VisibleAt(piece, k) }

  lemma StatementsIff(text: string)
    ensures StatementsOf(text) != [] <==> exists p :: p in RawPieces(text) && SomethingIn(p)
  {
    var pieces := RawPieces(text);
    if StatementsOf(text) != [] {
      var s := StatementsOf(text)[0];
      ExecutablesMember(pieces, s);
      SqlVisible.ExecutableIffVisible(s);
      assert s in pieces && SomethingIn(s);
    }
    if p :| p in pieces && SomethingIn(p) {
      ExecutablesMember(pieces, p);
      SqlVisible.ExecutableIffVisible(p);
    }
  }

  /**
   What passing the check means: the name is three digits, an underscore, something, and .sql; the file can be read and
   does not begin with a byte order mark; between two separators of it there is something to execute; and the word BEGIN
   stands alone nowhere in it outside quotes and comments.
   */
  lemma PassesIff(m: Migration, readOk: string -> bool)
    ensures Defect(m, readOk).None? <==>
            && |m.name| >= 9 && (forall i :: 0 <= i < 3 ==> '0' <= m.name[i] <= '9') && m.name[3] == '_'
            && m.name[|m.name| - 4..] == ".sql" && (forall i :: 4 <= i < |m.name| - 4 ==> m.name[i] != '\n')
            && readOk(m.name)
            && (m.text != "" ==> m.text[0] != '\U{FEFF}')
            && (exists p :: p in RawPieces(m.text) && SomethingIn(p))
            && forall i: nat :: SqlMarkers.StandsAlone(m.text, i) ==> !SqlVisible.VisibleAt(m.text, i)
  {
    StatementsIff(m.text);
    SqlMarkers.CompoundIffWritten(m.text);
    ConventionalIff(m.name);
  }

  lemma ConventionalIff(name: string)
    ensures ConventionalName(name) <==>
            && |name| >= 9 && (forall i :: 0 <= i < 3 ==> '0' <= name[i] <= '9') && name[3] == '_'
            && name[|name| - 4..] == ".sql" && forall i :: 4 <= i < |name| - 4 ==> name[i] != '\n'
  {
    if |name| >= 9 {
      var digits, middle := name[..3], name[4..|name| - 4];
      assert forall i :: 0 <= i < 3 ==> digits[i] == name[i];
      assert forall i :: 0 <= i < |middle| ==> middle[i] == name[i + 4];
      assert forall i :: 4 <= i < |name| - 4 ==> name[i] == middle[i - 4];
    }
  }

  /** Which of these is reported: the first, in this order, that fails. */
  lemma DefectSays(m: Migration, readOk: string -> bool)
    ensures var marked := m.text != "" && m.text[0] == '\U{FEFF}';
      var compound := exists i: nat :: SqlMarkers.StandsAlone(m.text, i) && SqlVisible.VisibleAt(m.text, i);
      match Defect(m, readOk)
      case Some(BadName) => !ConventionalName(m.name)
      case Some(Unreadable) => ConventionalName(m.name) && !readOk(m.name)
      case Some(ByteOrderMark) => ConventionalName(m.name) && readOk(m.name) && marked
      case Some(CompoundStatement) => ConventionalName(m.name) && readOk(m.name) && !marked && compound
      case Some(NothingToExecute) =>
        && ConventionalName(m.name) && readOk(m.name) && !marked && !compound
        && !exists p :: p in RawPieces(m.text) && SomethingIn(p)
      case Some(_) => false
      case None => true
  {
    StatementsIff(m.text);
    SqlMarkers.CompoundIffWritten(m.text);
  }

  /** With the number in three fixed digits, filename order is numeric order. */
  lemma NumbersFollowNames(a: string, b: string)
    requires ConventionalName(a) && ConventionalName(b)
    requires Numeral(a[..3]) < Numeral(b[..3])
    ensures Less(a, b)
  {
    LessNumerals(a[..3], b[..3]);
    LessFields(a[..3], a[3..], b[..3], b[3..]);
    assert a == a[..3] + a[3..] && b == b[..3] + b[3..];
  }

  predicate NumbersAscend(a: string, b: string)
    requires ConventionalName(a) && ConventionalName(b)
  {
    Numeral(a[..3]) <= Numeral(b[..3])
  }

  /** So scripts with conventional names are applied in the order of their numbers. */
  lemma AppliedByNumber(scripts: seq<Migration>, i: nat, j: nat)
    requires InFilenameOrder(scripts) && i < j < |scripts|
    requires ConventionalName(scripts[i].name) && ConventionalName(scripts[j].name)
    ensures NumbersAscend(scripts[i].name, scripts[j].name)
  {
    var a, b := scripts[i].name, scripts[j].name;
    if !NumbersAscend(a, b) {
      NumbersFollowNames(b, a);
      LessAsymmetric(a, b);
    }
  }

  lemma {:induction false} ExecutedFrom(cut: Cut, ms: seq<Migration>, s: string)
    requires s in RecordingAll(cut, EMPTY, ms).executed
    ensures exists i :: 0 <= i < |ms| && s in cut(ms[i].text)
  {
    var n := |ms| - 1;
    if s !in cut(ms[n].text) {
      ExecutedFrom(cut, ms[..n], s);
      var i :| 0 <= i < n && s in cut(ms[..n][i].text);
      assert ms[i] == ms[..n][i];
    }
  }

  /** Every statement executed was cut from one of the recorded scripts. */
  lemma ExecutedComesFrom(cut: Cut, db: Db, scripts: seq<Migration>, k: nat, s: string) returns (m: Migration)
    requires Recorded(cut, db, scripts, k) && s in db.executed
    ensures m in scripts && s in cut(m.text)
  {
    ExecutedFrom(cut, scripts[..k], s);
    var i :| 0 <= i < k && s in cut(scripts[..k][i].text);
    m := scripts[i];
  }

  /**
   Scripts that pass the startup check and in which the stripper shares the splitter's separators: over any sequence of
   starts no compound statement is ever executed.
   */
  lemma ValidatedScriptsRunNoCompound(db: Db, scripts: seq<Migration>, readOk: string -> bool, k: nat, s: string)
    requires Recorded(StatementsOf, db, scripts, k) && s in db.executed
    requires forall m :: m in scripts ==> Defect(m, readOk).None? && SharedSeparators(m.text)
    ensures !Compound(s)
  {
    var m := ExecutedComesFrom(StatementsOf, db, scripts, k, s);
    NoCompoundStatement(m, readOk, s);
  }

  lemma NoCompoundStatement(m: Migration, readOk: string -> bool, s: string)
    requires Defect(m, readOk).None? && SharedSeparators(m.text) && s in StatementsOf(m.text)
    ensures !Compound(s)
  {
    StartupCheckCovers(m.text);
    assert !Compound(m.text);
  }

  /** Without that condition the check can be passed by a script whose statements contain a compound one. */
  lemma EscapingScriptPassesCheck(name: string, readOk: string -> bool)
    requires ConventionalName(name) && readOk(name)
    ensures var m := Migration(name, ESCAPING);
      Defect(m, readOk).None? && exists s :: s in StatementsOf(m.text) && Compound(s)
  {
    TightCommentEscapes();
    assert !HasBom(ESCAPING);
  }
}
