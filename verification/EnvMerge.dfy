/**
 The child's environment block: inherited entries, then the forced pair, then the user's, later ones replacing earlier
 ones in place. `key` decides when two names are the same variable (upper-casing on Windows, the name itself
 elsewhere).
 */
module EnvMerge {
  import opened Basics
  import opened Ordering

  /** One entry of a block: a variable, or text passed through because no name stands before its first '='. */
  datatype Slot = Named(name: string, value: string) | Raw(text: string)

  function Render(s: Slot): string {
    if s.Named? then s.name + "=" + s.value else s.text
  }

  function EqualsAt(s: string): (at: nat)
    ensures at <= |s| && (at < |s| ==> s[at] == '=') && forall i :: 0 <= i < at ==> s[i] != '='
  {
    if s == "" || s[0] == '=' then 0 else 1 + EqualsAt(s[1..])
  }

  function Parse(entry: string): Slot {
    var at := EqualsAt(entry);
    if at == |entry| || at == 0 then Raw(entry) else Named(entry[..at], entry[at + 1..])
  }

  predicate Proper(name: string) { name != "" && '=' !in name }

  /** Reading an entry loses nothing, and a variable with a proper name is read back as itself. */
  lemma ParseRender(entry: string, s: Slot)
    ensures Render(Parse(entry)) == entry
    ensures Parse(entry).Named? ==> Proper(Parse(entry).name)
    ensures s.Named? && Proper(s.name) ==> Parse(Render(s)) == s
  {
    var at := EqualsAt(entry);
    assert 0 < at < |entry| ==> entry == entry[..at] + "=" + entry[at + 1..];
    if s.Named? && Proper(s.name) {
      var e := Render(s);
      assert forall i :: 0 <= i < |s.name| ==> e[i] == s.name[i];
      assert e[|s.name|] == '=';
      assert EqualsAt(e) == |s.name|;
    }
  }

  predicate HasKey(s: Slot, k: string, key: string -> string) { s.Named? && key(s.name) == k }

  predicate Binds(slots: seq<Slot>, k: string, key: string -> string) {
    exists i :: 0 <= i < |slots| && HasKey(slots[i], k, key)
  }

  /** The first slot of a variable, or the end. */
  function Position(slots: seq<Slot>, k: string, key: string -> string): (p: nat)
    ensures p <= |slots| && (p < |slots| ==> HasKey(slots[p], k, key))
    ensures forall i :: 0 <= i < p ==> !HasKey(slots[i], k, key)
  {
    if slots == [] then 0
    else
      var p := Position(slots[..|slots| - 1], k, key);
      if p < |slots| - 1 || HasKey(slots[|slots| - 1], k, key) then p else |slots|
  }

  function Put(slots: seq<Slot>, s: Slot, key: string -> string): seq<Slot> {
    var p := if s.Named? then Position(slots, key(s.name), key) else |slots|;
    if p < |slots| then slots[p := s] else slots + [s]
  }

  /** The writes one after the other. */
  function Applied(writes: seq<Slot>, key: string -> string): seq<Slot> {
    if writes == [] then [] else Put(Applied(writes[..|writes| - 1], key), writes[|writes| - 1], key)
  }

  // What the block should be, with no reference to how it is built.

  /** The last of the writes to a variable. */
  function Last(writes: seq<Slot>, k: string, key: string -> string): (s: Slot)
    requires Binds(writes, k, key)
    ensures HasKey(s, k, key) && s in writes
  {
    var n := |writes| - 1;
    if HasKey(writes[n], k, key) then writes[n] else Last(writes[..n], k, key)
  }

  function Final(writes: seq<Slot>, s: Slot, key: string -> string): (f: Slot)
    requires s in writes
    ensures if s.Named? then HasKey(f, key(s.name), key) else f == s
  {
    if s.Named? then
      assert HasKey(s, key(s.name), key);
      Last(writes, key(s.name), key)
    else s
  }

  lemma FinalKey(writes: seq<Slot>, s: Slot, k: string, key: string -> string)
    requires s in writes
    ensures HasKey(Final(writes, s, key), k, key) <==> HasKey(s, k, key)
  {
  }

  /** Not a later write to a variable already written. */
  predicate Opens(writes: seq<Slot>, i: nat, key: string -> string)
    requires i < |writes|
  {
    writes[i].Named? ==> !Binds(writes[..i], key(writes[i].name), key)
  }

  /** The first n writes' part of the block: one slot where a variable is first written, holding its last write. */
  function Merged(writes: seq<Slot>, n: nat, key: string -> string): seq<Slot>
    requires n <= |writes|
  {
    if n == 0 then []
    else if Opens(writes, n - 1, key) then Merged(writes, n - 1, key) + [Final(writes, writes[n - 1], key)]
    else Merged(writes, n - 1, key)
  }

  lemma MergedStep(writes: seq<Slot>, n: nat, key: string -> string)
    requires 0 < n <= |writes|
    ensures Opens(writes, n - 1, key) ==>
      Merged(writes, n, key) == Merged(writes, n - 1, key) + [Final(writes, writes[n - 1], key)]
    ensures !Opens(writes, n - 1, key) ==> Merged(writes, n, key) == Merged(writes, n - 1, key)
  {
  }

  /** The slots of the first n writes bind exactly the variables those writes bind. */
  lemma {:induction false} MergedBinds(writes: seq<Slot>, n: nat, k: string, key: string -> string)
    requires n <= |writes|
    ensures Binds(Merged(writes, n, key), k, key) <==> Binds(writes[..n], k, key)
  {
    if n > 0 {
      MergedBinds(writes, n - 1, k, key);
      var before := Merged(writes, n - 1, key);
      MergedStep(writes, n, key);
      BindsSnoc(writes[..n - 1], writes[n - 1], k, key);
      assert writes[..n] == writes[..n - 1] + [writes[n - 1]];
      if Opens(writes, n - 1, key) {
        FinalKey(writes, writes[n - 1], k, key);
        BindsSnoc(before, Final(writes, writes[n - 1], key), k, key);
      } else if HasKey(writes[n - 1], k, key) {
        assert Binds(writes[..n - 1], k, key);
      }
    }
  }

  lemma BindsSnoc(slots: seq<Slot>, s: Slot, k: string, key: string -> string)
    ensures Binds(slots + [s], k, key) <==> Binds(slots, k, key) || HasKey(s, k, key)
  {
    if Binds(slots, k, key) {
      var i :| 0 <= i < |slots| && HasKey(slots[i], k, key);
      assert (slots + [s])[i] == slots[i];
    }
    assert (slots + [s])[|slots|] == s;
  }

  lemma BindsPosition(slots: seq<Slot>, k: string, key: string -> string)
    ensures Binds(slots, k, key) <==> Position(slots, k, key) < |slots|
  {
  }

  lemma PositionSnoc(slots: seq<Slot>, s: Slot, k: string, key: string -> string)
    ensures Position(slots + [s], k, key) ==
            if Binds(slots, k, key) then Position(slots, k, key)
            else if HasKey(s, k, key) then |slots| else |slots| + 1
  {
    assert (slots + [s])[..|slots|] == slots;
  }

  /** One more write changes the block of the earlier ones in one slot, if that. */
  lemma {:induction false} MergedSnoc(writes: seq<Slot>, x: Slot, n: nat, key: string -> string)
    requires n <= |writes| && x.Named?
    ensures var m := Merged(writes, n, key);
            Merged(writes + [x], n, key) == UpdateAt(m, Position(m, key(x.name), key), x)
  {
    if n > 0 {
      var m, s := Merged(writes, n - 1, key), writes[n - 1];
      MergedSnoc(writes, x, n - 1, key);
      SnocStep(writes, x, n, key);
      if Opens(writes, n - 1, key) {
        OpensFree(writes, n - 1, key(x.name), key);
        Replaced(m, Final(writes, s, key), x, key);
      }
    }
  }

  /** The n-th write's part of the two blocks, with and without the last write x. */
  lemma SnocStep(writes: seq<Slot>, x: Slot, n: nat, key: string -> string)
    requires 0 < n <= |writes| && x.Named?
    ensures var f := Final(writes, writes[n - 1], key);
      if Opens(writes, n - 1, key) then
        && Merged(writes, n, key) == Merged(writes, n - 1, key) + [f]
        && Merged(writes + [x], n, key)
           == Merged(writes + [x], n - 1, key) + [if HasKey(f, key(x.name), key) then x else f]
      else
        && Merged(writes, n, key) == Merged(writes, n - 1, key)
        && Merged(writes + [x], n, key) == Merged(writes + [x], n - 1, key)
  {
    OpensSnoc(writes, x, n - 1, key);
    FinalSnoc(writes, x, writes[n - 1], key);
    FinalKey(writes, writes[n - 1], key(x.name), key);
  }

  /** A write that opens a slot finds no slot of its variable. */
  lemma OpensFree(writes: seq<Slot>, i: nat, k: string, key: string -> string)
    requires i < |writes| && Opens(writes, i, key)
    ensures HasKey(Final(writes, writes[i], key), k, key) ==> !Binds(Merged(writes, i, key), k, key)
  {
    FinalKey(writes, writes[i], k, key);
    MergedBinds(writes, i, k, key);
  }

  lemma OpensSnoc(writes: seq<Slot>, x: Slot, i: nat, key: string -> string)
    requires i < |writes|
    ensures (writes + [x])[i] == writes[i]
    ensures Opens(writes + [x], i, key) <==> Opens(writes, i, key)
  {
    assert (writes + [x])[..i] == writes[..i];
  }

  function UpdateAt<T>(m: seq<T>, p: nat, x: T): seq<T> {
    if p < |m| then m[p := x] else m
  }

  lemma UpdateSnoc<T>(m: seq<T>, s: T, x: T, p: nat)
    ensures UpdateAt(m + [s], p, x) == UpdateAt(m, p, x) + [if p == |m| then x else s]
  {
  }

  /** Replacing x's slot in a block and in the block with one more slot. */
  lemma Replaced(m: seq<Slot>, s: Slot, x: Slot, key: string -> string)
    requires x.Named? && (HasKey(s, key(x.name), key) ==> !Binds(m, key(x.name), key))
    ensures var k := key(x.name);
            UpdateAt(m + [s], Position(m + [s], k, key), x)
            == UpdateAt(m, Position(m, k, key), x) + [if HasKey(s, k, key) then x else s]
  {
    PositionSnoc(m, s, key(x.name), key);
    BindsPosition(m, key(x.name), key);
    UpdateSnoc(m, s, x, Position(m + [s], key(x.name), key));
  }

  lemma FinalSnoc(writes: seq<Slot>, x: Slot, s: Slot, key: string -> string)
    requires s in writes
    ensures s in writes + [x]
    ensures Final(writes + [x], s, key) ==
            if s.Named? && x.Named? && key(s.name) == key(x.name) then x else Final(writes, s, key)
  {
    assert (writes + [x])[..|writes|] == writes;
    if s.Named? { assert HasKey(s, key(s.name), key); }
  }

  lemma {:induction false} MergedRaw(writes: seq<Slot>, x: Slot, n: nat, key: string -> string)
    requires n <= |writes| && x.Raw?
    ensures Merged(writes + [x], n, key) == Merged(writes, n, key)
  {
    if n > 0 {
      MergedRaw(writes, x, n - 1, key);
      assert (writes + [x])[..n - 1] == writes[..n - 1];
      FinalSnoc(writes, x, writes[n - 1], key);
    }
  }

  /** Replacing in place gives one slot for each variable, where it first appeared, with its last write. */
  lemma {:induction false} AppliedIsMerged(writes: seq<Slot>, key: string -> string)
    ensures Applied(writes, key) == Merged(writes, |writes|, key)
  {
    if writes != [] {
      var n := |writes| - 1;
      var done, x := writes[..n], writes[n];
      AppliedIsMerged(done, key);
      assert writes == done + [x];
      if x.Raw? {
        MergedRaw(done, x, n, key);
      } else {
        MergedSnoc(done, x, n, key);
        MergedBinds(done, n, key(x.name), key);
        assert done[..n] == done;
        BindsPosition(Merged(done, n, key), key(x.name), key);
      }
    }
  }

  /** No variable has two slots. */
  ghost predicate OneSlotEach(slots: seq<Slot>, key: string -> string) {
    forall i, j :: 0 <= i < j < |slots| && slots[i].Named? && slots[j].Named? ==>
      key(slots[i].name) != key(slots[j].name)
  }

  lemma {:induction false} MergedOneSlotEach(writes: seq<Slot>, n: nat, key: string -> string)
    requires n <= |writes|
    ensures OneSlotEach(Merged(writes, n, key), key)
  {
    if n > 0 {
      MergedOneSlotEach(writes, n - 1, key);
      var m, s := Merged(writes, n - 1, key), writes[n - 1];
      if Opens(writes, n - 1, key) && s.Named? {
        MergedBinds(writes, n - 1, key(s.name), key);
        forall i | 0 <= i < |m| && m[i].Named? ensures key(m[i].name) != key(s.name) {
          assert !HasKey(m[i], key(s.name), key);
        }
      }
    }
  }

  /** A variable's slot holds the last write to it. */
  lemma {:induction false} MergedLast(writes: seq<Slot>, n: nat, i: nat, key: string -> string)
    requires n <= |writes| && i < |Merged(writes, n, key)| && Merged(writes, n, key)[i].Named?
    ensures var s := Merged(writes, n, key)[i];
      Binds(writes, key(s.name), key) && s == Last(writes, key(s.name), key)
  {
    if i < |Merged(writes, n - 1, key)| {
      MergedLast(writes, n - 1, i, key);
    } else {
      assert HasKey(writes[n - 1], key(writes[n - 1].name), key);
    }
  }

  /** Of two groups of writes the later one decides, if it names the variable at all. */
  lemma {:induction false} LastOfTwo(a: seq<Slot>, b: seq<Slot>, k: string, key: string -> string)
    requires Binds(a + b, k, key)
    ensures Binds(a, k, key) || Binds(b, k, key)
    ensures Last(a + b, k, key) == if Binds(b, k, key) then Last(b, k, key) else Last(a, k, key)
  {
    if b == [] {
      assert a + b == a;
    } else {
      var n := |b| - 1;
      assert (a + b)[..|a| + n] == a + b[..n];
      assert b == b[..n] + [b[n]];
      BindsSnoc(b[..n], b[n], k, key);
      assert a + b == (a + b[..n]) + [b[n]];
      BindsSnoc(a + b[..n], b[n], k, key);
      if !HasKey(b[n], k, key) { LastOfTwo(a, b[..n], k, key); }
    }
  }

  // Building the block.

  const FORCED: map<string, string> := map["PYTHONIOENCODING" := "utf-8", "PYTHONUTF8" := "1"]

  function Bindings(names: seq<string>, m: map<string, string>): seq<Slot>
    requires forall n :: n in names ==> n in m
  {
    if names == [] then [] else Bindings(names[..|names| - 1], m) + [Named(names[|names| - 1], m[names[|names| - 1]])]
  }

  function Parsed(entries: seq<string>): (slots: seq<Slot>)
    ensures |slots| == |entries| && forall i :: 0 <= i < |entries| ==> slots[i] == Parse(entries[i])
  {
    if entries == [] then [] else Parsed(entries[..|entries| - 1]) + [Parse(entries[|entries| - 1])]
  }

  ghost function MapWrites(m: map<string, string>): seq<Slot> {
    assert forall n :: n in Sorted(m.Keys) ==> n in Elements(Sorted(m.Keys));
    Bindings(Sorted(m.Keys), m)
  }

  /** Everything that is written, in order. */
  ghost function Writes(inherited: seq<string>, forced: map<string, string>, userEnv: map<string, string>): seq<Slot> {
    (Parsed(inherited) + MapWrites(forced)) + MapWrites(userEnv)
  }

  predicate Shows(block: seq<string>, slots: seq<Slot>) {
    |block| == |slots| && forall i :: 0 <= i < |block| ==> block[i] == Render(slots[i])
  }

  /** The index points at each variable's slot and at nothing else. */
  ghost predicate Indexes(index: map<string, nat>, slots: seq<Slot>, key: string -> string) {
    && (forall k :: k in index <==> Binds(slots, k, key))
    && (forall k :: k in index ==> index[k] == Position(slots, k, key))
  }

  lemma IndexesRaw(index: map<string, nat>, slots: seq<Slot>, s: Slot, key: string -> string)
    requires Indexes(index, slots, key) && s.Raw?
    ensures Indexes(index, slots + [s], key) && Put(slots, s, key) == slots + [s]
  {
    forall k ensures Binds(slots + [s], k, key) <==> Binds(slots, k, key)
             ensures Binds(slots, k, key) ==> Position(slots + [s], k, key) == Position(slots, k, key)
    {
      BindsSnoc(slots, s, k, key);
      PositionSnoc(slots, s, k, key);
    }
  }

  lemma IndexesNew(index: map<string, nat>, slots: seq<Slot>, s: Slot, key: string -> string)
    requires Indexes(index, slots, key) && s.Named? && key(s.name) !in index
    ensures Indexes(index[key(s.name) := |slots|], slots + [s], key) && Put(slots, s, key) == slots + [s]
  {
    BindsPosition(slots, key(s.name), key);
    forall k ensures Binds(slots + [s], k, key) <==> Binds(slots, k, key) || k == key(s.name)
             ensures Position(slots + [s], k, key) ==
                     if Binds(slots, k, key) then Position(slots, k, key)
                     else if k == key(s.name) then |slots| else |slots| + 1
    {
      BindsSnoc(slots, s, k, key);
      PositionSnoc(slots, s, k, key);
    }
  }

  lemma IndexesSame(index: map<string, nat>, slots: seq<Slot>, s: Slot, key: string -> string)
    requires Indexes(index, slots, key) && s.Named? && key(s.name) in index
    ensures index[key(s.name)] < |slots|
    ensures Indexes(index, slots[index[key(s.name)] := s], key)
    ensures Put(slots, s, key) == slots[index[key(s.name)] := s]
  {
    BindsPosition(slots, key(s.name), key);
    var changed := slots[index[key(s.name)] := s];
    forall k ensures Binds(changed, k, key) <==> Binds(slots, k, key)
             ensures Position(changed, k, key) == Position(slots, k, key)
    {
      PositionUpdate(slots, index[key(s.name)], s, k, key);
      BindsPosition(slots, k, key);
      BindsPosition(changed, k, key);
    }
  }

  /** Replacing a slot by another of the same variable moves no variable. */
  lemma PositionUpdate(slots: seq<Slot>, at: nat, s: Slot, k: string, key: string -> string)
    requires at < |slots| && s.Named? && HasKey(slots[at], key(s.name), key)
    ensures Position(slots[at := s], k, key) == Position(slots, k, key)
  {
    var changed := slots[at := s];
    forall i | 0 <= i < |slots| ensures HasKey(changed[i], k, key) <==> HasKey(slots[i], k, key) {}
    PositionLeast(slots, k, key, Position(changed, k, key));
    PositionLeast(changed, k, key, Position(slots, k, key));
  }

  lemma PositionLeast(slots: seq<Slot>, k: string, key: string -> string, p: nat)
    requires p < |slots| ==> HasKey(slots[p], k, key)
    requires p <= |slots|
    ensures Position(slots, k, key) <= p
  {
  }

  lemma AppliedSnoc(a: seq<Slot>, s: Slot, key: string -> string)
    ensures Applied(a + [s], key) == Put(Applied(a, key), s, key)
  {
    assert (a + [s])[..|a|] == a;
  }

  lemma ParsedSnoc(entries: seq<string>, i: nat, key: string -> string)
    requires i < |entries|
    ensures Applied(Parsed(entries[..i + 1]), key) == Put(Applied(Parsed(entries[..i]), key), Parse(entries[i]), key)
  {
    assert entries[..i + 1][..i] == entries[..i];
    AppliedSnoc(Parsed(entries[..i]), Parse(entries[i]), key);
  }

  lemma BindingsSnoc(earlier: seq<Slot>, names: seq<string>, m: map<string, string>, i: nat, key: string -> string)
    requires i < |names| && forall n :: n in names ==> n in m
    ensures Applied(earlier + Bindings(names[..i + 1], m), key)
         == Put(Applied(earlier + Bindings(names[..i], m), key), Named(names[i], m[names[i]]), key)
  {
    var s := Named(names[i], m[names[i]]);
    assert names[..i + 1][..i] == names[..i];
    assert earlier + (Bindings(names[..i], m) + [s]) == (earlier + Bindings(names[..i], m)) + [s];
    AppliedSnoc(earlier + Bindings(names[..i], m), s, key);
  }

  /** The block under construction, and where each variable stands in it. */
  class Environment {
    var block: seq<string>
    var index: map<string, nat>
    ghost var slots: seq<Slot>
    const key: string -> string

    ghost predicate Valid()
      reads this
    {
      Shows(block, slots) && Indexes(index, slots, key)
    }

    constructor (key: string -> string)
      ensures Valid() && this.key == key && slots == [] && fresh(this)
    {
      this.key := key;
      block, index, slots := [], map[], [];
    }

    /** An inherited entry without a name is passed through untouched. */
    method Pass(entry: string)
      requires Valid()
      modifies this
      ensures Valid() && slots == Put(old(slots), Raw(entry), key)
    {
      IndexesRaw(index, slots, Raw(entry), key);
      block, slots := block + [entry], slots + [Raw(entry)];
    }

    method Set(name: string, value: string)
      requires Valid()
      modifies this
      ensures Valid() && slots == Put(old(slots), Named(name, value), key)
    {
      ghost var s := Named(name, value);
      var k := key(name);
      if k in index {
        IndexesSame(index, slots, s, key);
        block, slots := block[index[k] := name + "=" + value], slots[index[k] := s];
      } else {
        IndexesNew(index, slots, s, key);
        index, block, slots := index[k := |block|], block + [name + "=" + value], slots + [s];
      }
    }

    method SetAll(m: map<string, string>, ghost earlier: seq<Slot>)
      requires Valid() && slots == Applied(earlier, key)
      modifies this
      ensures Valid() && slots == Applied(earlier + MapWrites(m), key)
    {
      var keys := SortedKeys(m);
      assert forall n :: n in keys ==> n in Elements(keys);
      assert earlier + [] == earlier;
      var i := 0;
      while i < |keys|
        invariant i <= |keys| && Valid()
        invariant slots == Applied(earlier + Bindings(keys[..i], m), key)
      {
        Set(keys[i], m[keys[i]]);
        BindingsSnoc(earlier, keys, m, i, key);
        i := i + 1;
      }
      assert keys[..i] == keys;
    }
  }

  method MergeEnv(inherited: seq<string>, userEnv: map<string, string>, key: string -> string)
    returns (block: seq<string>)
    ensures Shows(block, Applied(Writes(inherited, FORCED, userEnv), key))
  {
    var env := new Environment(key);
    var i := 0;
    while i < |inherited|
      invariant i <= |inherited| && env.Valid() && env.key == key
      invariant env.slots == Applied(Parsed(inherited[..i]), key)
    {
      var at := EqualsAt(inherited[i]);
      if at == |inherited[i]| || at == 0 {
        env.Pass(inherited[i]);
      } else {
        env.Set(inherited[i][..at], inherited[i][at + 1..]);
      }
      ParsedSnoc(inherited, i, key);
      i := i + 1;
    }
    assert inherited[..i] == inherited;
    env.SetAll(FORCED, Parsed(inherited));
    env.SetAll(userEnv, Parsed(inherited) + MapWrites(FORCED));
    block := env.block;
  }

  // What the block promises.

  lemma {:induction false} BindingsAt(names: seq<string>, m: map<string, string>)
    requires forall n :: n in names ==> n in m
    ensures |Bindings(names, m)| == |names|
    ensures forall i :: 0 <= i < |names| ==> Bindings(names, m)[i] == Named(names[i], m[names[i]])
  {
    if names != [] { BindingsAt(names[..|names| - 1], m); }
  }

  lemma MapWritesAre(m: map<string, string>)
    ensures |MapWrites(m)| == |Sorted(m.Keys)|
    ensures forall i :: 0 <= i < |MapWrites(m)| ==>
              Sorted(m.Keys)[i] in m && MapWrites(m)[i] == Named(Sorted(m.Keys)[i], m[Sorted(m.Keys)[i]])
    ensures forall n :: n in m ==> Named(n, m[n]) in MapWrites(m)
  {
    var names := Sorted(m.Keys);
    assert forall n :: n in names ==> n in Elements(names);
    BindingsAt(names, m);
    forall n | n in m ensures Named(n, m[n]) in MapWrites(m) {
      assert n in Elements(names);
      var i :| 0 <= i < |names| && names[i] == n;
      assert MapWrites(m)[i] == Named(n, m[n]);
    }
  }

  lemma {:induction false} LastAt(writes: seq<Slot>, i: nat, k: string, key: string -> string)
    requires i < |writes| && HasKey(writes[i], k, key)
    requires forall j :: i < j < |writes| ==> !HasKey(writes[j], k, key)
    ensures Binds(writes, k, key) && Last(writes, k, key) == writes[i]
  {
    if i < |writes| - 1 { LastAt(writes[..|writes| - 1], i, k, key); }
  }

  /** Among names of one variable in a map, the last in sorting order is the one that counts. */
  lemma MapLast(m: map<string, string>, n: string, key: string -> string)
    requires n in m && forall o :: o in m && key(o) == key(n) ==> o == n || Less(o, n)
    ensures Binds(MapWrites(m), key(n), key) && Last(MapWrites(m), key(n), key) == Named(n, m[n])
  {
    MapWritesAre(m);
    var w, names := MapWrites(m), Sorted(m.Keys);
    var i :| 0 <= i < |w| && w[i] == Named(n, m[n]);
    forall j | i < j < |w| ensures !HasKey(w[j], key(n), key) {
      assert Less(names[i], names[j]);
      LessIrreflexive(names[i]);
      if Less(names[j], names[i]) { LessAsymmetric(names[j], names[i]); }
    }
    LastAt(w, i, key(n), key);
  }

  /**
   The finished block has exactly one slot for every variable written, holding the user's entry if there is one, else
   the forced one, else the last inherited one.
   */
  lemma Priority(inherited: seq<string>, forced: map<string, string>, userEnv: map<string, string>, k: string,
                 key: string -> string)
    ensures var slots := Applied(Writes(inherited, forced, userEnv), key);
      OneSlotEach(slots, key) &&
      (Binds(slots, k, key) <==> Binds(MapWrites(userEnv), k, key) || Binds(MapWrites(forced), k, key)
                                 || Binds(Parsed(inherited), k, key)) &&
      (Binds(slots, k, key) ==>
        slots[Position(slots, k, key)] ==
          if Binds(MapWrites(userEnv), k, key) then Last(MapWrites(userEnv), k, key)
          else if Binds(MapWrites(forced), k, key) then Last(MapWrites(forced), k, key)
          else if Binds(Parsed(inherited), k, key) then Last(Parsed(inherited), k, key)
          else Raw(""))
  {
    var w := Writes(inherited, forced, userEnv);
    var slots := Merged(w, |w|, key);
    AppliedIsMerged(w, key);
    MergedOneSlotEach(w, |w|, key);
    MergedBinds(w, |w|, k, key);
    assert w[..|w|] == w;
    BindsConcat(Parsed(inherited) + MapWrites(forced), MapWrites(userEnv), k, key);
    BindsConcat(Parsed(inherited), MapWrites(forced), k, key);
    if Binds(slots, k, key) {
      BindsPosition(slots, k, key);
      MergedLast(w, |w|, Position(slots, k, key), key);
      LastOfTwo(Parsed(inherited) + MapWrites(forced), MapWrites(userEnv), k, key);
      if !Binds(MapWrites(userEnv), k, key) { LastOfTwo(Parsed(inherited), MapWrites(forced), k, key); }
    }
  }

  lemma BindsConcat(a: seq<Slot>, b: seq<Slot>, k: string, key: string -> string)
    ensures Binds(a + b, k, key) <==> Binds(a, k, key) || Binds(b, k, key)
  {
    if Binds(a, k, key) {
      var i :| 0 <= i < |a| && HasKey(a[i], k, key);
      assert (a + b)[i] == a[i];
    }
    if Binds(b, k, key) {
      var i :| 0 <= i < |b| && HasKey(b[i], k, key);
      assert (a + b)[|a| + i] == b[i];
    }
  }

  lemma {:induction false} MergedFrom(writes: seq<Slot>, n: nat, key: string -> string)
    requires n <= |writes|
    ensures forall s :: s in Merged(writes, n, key) ==> s in writes
  {
    if n > 0 { MergedFrom(writes, n - 1, key); }
  }

  lemma ParsedReadBack(inherited: seq<string>, s: Slot)
    requires s in Parsed(inherited)
    ensures Parse(Render(s)) == s
  {
    var i :| 0 <= i < |inherited| && Parsed(inherited)[i] == s;
    ParseRender(inherited[i], s);
  }

  lemma MapReadsBack(m: map<string, string>, s: Slot)
    requires s in MapWrites(m) && forall n :: n in m ==> Proper(n)
    ensures s.Named? && Parse(Render(s)) == s
  {
    MapWritesAre(m);
    var i :| 0 <= i < |MapWrites(m)| && MapWrites(m)[i] == s;
    ParseRender("", s);
  }

  lemma WritesReadBack(inherited: seq<string>, forced: map<string, string>, userEnv: map<string, string>, s: Slot)
    requires s in Writes(inherited, forced, userEnv) && forall n :: n in forced || n in userEnv ==> Proper(n)
    ensures Parse(Render(s)) == s
  {
    if s in Parsed(inherited) {
      ParsedReadBack(inherited, s);
    } else if s in MapWrites(forced) {
      MapReadsBack(forced, s);
    } else {
      MapReadsBack(userEnv, s);
    }
  }

  lemma ShownReadsBack(block: seq<string>, slots: seq<Slot>)
    requires Shows(block, slots) && forall s :: s in slots ==> Parse(Render(s)) == s
    ensures Parsed(block) == slots
  {
    forall i | 0 <= i < |block| ensures Parsed(block)[i] == slots[i] {
      assert slots[i] in slots;
    }
  }

  /** With proper names in the user's map, the block reads back as the slots it was made from. */
  lemma BlockReadsBack(inherited: seq<string>, forced: map<string, string>, userEnv: map<string, string>,
                       key: string -> string, block: seq<string>)
    requires Shows(block, Applied(Writes(inherited, forced, userEnv), key))
    requires forall n :: n in forced || n in userEnv ==> Proper(n)
    ensures Parsed(block) == Applied(Writes(inherited, forced, userEnv), key)
  {
    var w := Writes(inherited, forced, userEnv);
    AppliedIsMerged(w, key);
    MergedFrom(w, |w|, key);
    forall s | s in Applied(w, key) ensures Parse(Render(s)) == s {
      WritesReadBack(inherited, forced, userEnv, s);
    }
    ShownReadsBack(block, Applied(w, key));
  }

  /** Merging again, as a server started by this one would with the same entry, changes nothing. */
  lemma MergeTwice(inherited: seq<string>, forced: map<string, string>, userEnv: map<string, string>,
                   key: string -> string, block: seq<string>, again: seq<string>)
    requires Shows(block, Applied(Writes(inherited, forced, userEnv), key))
    requires Shows(again, Applied(Writes(block, forced, userEnv), key))
    requires forall n :: n in forced || n in userEnv ==> Proper(n)
    ensures again == block
  {
    var tail := MapWrites(forced) + MapWrites(userEnv);
    BlockReadsBack(inherited, forced, userEnv, key, block);
    Regroup(Parsed(inherited), MapWrites(forced), MapWrites(userEnv));
    Regroup(Parsed(block), MapWrites(forced), MapWrites(userEnv));
    TailNamed(forced, userEnv);
    AppliedAgain(Parsed(inherited), tail, key);
    ShownOnce(block, again, Applied(Parsed(inherited) + tail, key));
  }

  lemma Regroup<T>(a: seq<T>, b: seq<T>, c: seq<T>)
    ensures (a + b) + c == a + (b + c)
  {
  }

  lemma TailNamed(forced: map<string, string>, userEnv: map<string, string>)
    ensures forall s :: s in MapWrites(forced) + MapWrites(userEnv) ==> s.Named?
  {
    MapWritesAre(forced);
    MapWritesAre(userEnv);
  }

  lemma ShownOnce(a: seq<string>, b: seq<string>, slots: seq<Slot>)
    requires Shows(a, slots) && Shows(b, slots)
    ensures a == b
  {
  }

  lemma AppliedAgain(a: seq<Slot>, tail: seq<Slot>, key: string -> string)
    requires forall s :: s in tail ==> s.Named?
    ensures Applied(Applied(a + tail, key) + tail, key) == Applied(a + tail, key)
  {
    var m := Applied(a + tail, key);
    AppliedIsMerged(a + tail, key);
    AppliedIsMerged(m + tail, key);
    AgainMerged(a, tail, |m|, key);
    AgainNothing(a, tail, |m + tail|, key);
    assert m[..|m|] == m;
  }

  /** The block's own slots come out again as they are. */
  lemma {:induction false} AgainMerged(a: seq<Slot>, tail: seq<Slot>, n: nat, key: string -> string)
    requires n <= |Merged(a + tail, |a + tail|, key)|
    ensures var m := Merged(a + tail, |a + tail|, key);
      Merged(m + tail, n, key) == m[..n]
  {
    var w := a + tail;
    var m := Merged(w, |w|, key);
    if n > 0 {
      var s := m[n - 1];
      AgainMerged(a, tail, n - 1, key);
      MergedOneSlotEach(w, |w|, key);
      assert (m + tail)[..n - 1] == m[..n - 1] && (m + tail)[n - 1] == s;
      if s.Named? {
        AgainFinal(a, tail, n - 1, key);
        forall i | 0 <= i < n - 1 ensures !HasKey(m[i], key(s.name), key) {}
      }
      MergedStep(m + tail, n, key);
    }
  }

  lemma AgainFinal(a: seq<Slot>, tail: seq<Slot>, i: nat, key: string -> string)
    requires i < |Merged(a + tail, |a + tail|, key)| && Merged(a + tail, |a + tail|, key)[i].Named?
    ensures var m := Merged(a + tail, |a + tail|, key);
      m[i] in m + tail && Final(m + tail, m[i], key) == m[i]
  {
    var w := a + tail;
    var m := Merged(w, |w|, key);
    var k := key(m[i].name);
    assert (m + tail)[i] == m[i];
    assert HasKey(m[i], k, key);
    assert Binds(m, k, key);
    BindsConcat(m, tail, k, key);
    MergedLast(w, |w|, i, key);
    LastOfTwo(a, tail, k, key);
    LastOfTwo(m, tail, k, key);
    MergedOneSlotEach(w, |w|, key);
    forall j | i < j < |m| ensures !HasKey(m[j], k, key) {}
    LastAt(m, i, k, key);
  }

  /** The forced and the user's entries open no further slot. */
  lemma {:induction false} AgainNothing(a: seq<Slot>, tail: seq<Slot>, n: nat, key: string -> string)
    requires forall s :: s in tail ==> s.Named?
    requires var m := Merged(a + tail, |a + tail|, key); |m| <= n <= |m + tail|
    ensures var m := Merged(a + tail, |a + tail|, key);
      Merged(m + tail, n, key) == Merged(m + tail, |m|, key)
  {
    var w := a + tail;
    var m := Merged(w, |w|, key);
    if n > |m| {
      var s := (m + tail)[n - 1];
      AgainNothing(a, tail, n - 1, key);
      assert s == tail[n - 1 - |m|] && s == w[|a| + n - 1 - |m|];
      assert HasKey(s, key(s.name), key);
      assert w[..|w|] == w;
      MergedBinds(w, |w|, key(s.name), key);
      assert (m + tail)[..n - 1] == m + tail[..n - 1 - |m|];
      BindsConcat(m, tail[..n - 1 - |m|], key(s.name), key);
      MergedStep(m + tail, n, key);
    }
  }
}
