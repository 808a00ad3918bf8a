/**
 Byte strings cut into units by a prefix-free code: no unit is a proper prefix of another, so a string splits into units
 in at most one way. UTF-8 characters are one such code and the characters of a double-byte code page are another; what
 an incremental decoder may rely on is the same for both and is proved here once.
 */
module PrefixCodes {
  import opened Basics

  type Unit = seq<Byte> -> bool

  ghost predicate PrefixFree(unit: Unit) {
    && !unit([])
    && forall u, n :: 0 <= n < |u| && unit(u) ==> !unit(u[..n])
  }

  /** s is a sequence of whole units. */
  ghost predicate Segmented(unit: Unit, s: seq<Byte>)
    decreases |s|
  {
    s == [] || exists n :: 0 < n <= |s| && unit(s[..n]) && Segmented(unit, s[n..])
  }

  ghost predicate CompletedBy(unit: Unit, s: seq<Byte>, t: seq<Byte>) {
    Segmented(unit, s + t)
  }

  /** Bytes still to come can complete s. */
  ghost predicate Viable(unit: Unit, s: seq<Byte>) {
    exists t :: CompletedBy(unit, s, t)
  }

  /** n is the length of the longest prefix of s made of whole units. */
  ghost predicate IsLongest(unit: Unit, s: seq<Byte>, n: int) {
    && 0 <= n <= |s|
    && Segmented(unit, s[..n])
    && forall m :: n < m <= |s| ==> !Segmented(unit, s[..m])
  }

  ghost function LongestUpTo(unit: Unit, s: seq<Byte>, limit: nat): (n: nat)
    requires limit <= |s|
    ensures n <= limit && Segmented(unit, s[..n])
    ensures forall m :: n < m <= limit ==> !Segmented(unit, s[..m])
  {
    if Segmented(unit, s[..limit]) then limit
    else
      assert s[..0] == [];
      LongestUpTo(unit, s, limit - 1)
  }

  ghost function Longest(unit: Unit, s: seq<Byte>): (n: nat)
    ensures IsLongest(unit, s, n)
  {
    LongestUpTo(unit, s, |s|)
  }

  lemma LongestUnique(unit: Unit, s: seq<Byte>, m: int, n: int)
    requires IsLongest(unit, s, m) && IsLongest(unit, s, n)
    ensures m == n
  {
  }

  lemma SegmentedUnit(unit: Unit, u: seq<Byte>)
    requires unit(u) && u != []
    ensures Segmented(unit, u)
  {
    assert u[..|u|] == u && u[|u|..] == [];
  }

  lemma {:induction false} ConcatSegmented(unit: Unit, s: seq<Byte>, t: seq<Byte>)
    requires Segmented(unit, s) && Segmented(unit, t)
    ensures Segmented(unit, s + t)
    decreases |s|
  {
    if s == [] {
      assert s + t == t;
    } else {
      var n :| 0 < n <= |s| && unit(s[..n]) && Segmented(unit, s[n..]);
      ConcatSegmented(unit, s[n..], t);
      assert (s + t)[..n] == s[..n] && (s + t)[n..] == s[n..] + t;
    }
  }

  /** A segmented string can be cancelled from the front: what follows it splits on its own. */
  lemma {:induction false} CancelSegmented(unit: Unit, s: seq<Byte>, t: seq<Byte>)
    requires PrefixFree(unit)
    requires Segmented(unit, s) && Segmented(unit, s + t)
    ensures Segmented(unit, t)
    decreases |s|
  {
    if s == [] {
      assert s + t == t;
    } else {
      var w := s + t;
      var n :| 0 < n <= |s| && unit(s[..n]) && Segmented(unit, s[n..]);
      var m :| 0 < m <= |w| && unit(w[..m]) && Segmented(unit, w[m..]);
      assert w[..n] == s[..n];
      var k := Min(n, m);
      assert w[..m][..k] == w[..k] && w[..n][..k] == w[..k];
      assert n == m;
      assert w[n..] == s[n..] + t;
      CancelSegmented(unit, s[n..], t);
    }
  }

  /** Bytes after a segmented prefix are judged exactly as if they stood alone. */
  lemma ViableAfter(unit: Unit, s: seq<Byte>, t: seq<Byte>)
    requires PrefixFree(unit) && Segmented(unit, s)
    ensures Viable(unit, s + t) <==> Viable(unit, t)
  {
    if Viable(unit, s + t) { ViableBehind(unit, s, t); }
    if Viable(unit, t) { ViableBefore(unit, s, t); }
  }

  lemma ViableBefore(unit: Unit, s: seq<Byte>, t: seq<Byte>)
    requires Segmented(unit, s) && Viable(unit, t)
    ensures Viable(unit, s + t)
  {
    var x :| CompletedBy(unit, t, x);
    ConcatSegmented(unit, s, t + x);
    Regroup(s, t, x);
    assert CompletedBy(unit, s + t, x);
  }

  lemma Regroup<T>(s: seq<T>, t: seq<T>, x: seq<T>)
    ensures s + t + x == s + (t + x)
  {
  }

  lemma ViableBehind(unit: Unit, s: seq<Byte>, t: seq<Byte>)
    requires PrefixFree(unit) && Segmented(unit, s) && Viable(unit, s + t)
    ensures Viable(unit, t)
  {
    var x :| CompletedBy(unit, s + t, x);
    Regroup(s, t, x);
    CancelSegmented(unit, s, t + x);
    assert CompletedBy(unit, t, x);
  }

  /** A string that cannot be completed cannot be completed after more bytes either. */
  lemma ViablePrefix(unit: Unit, s: seq<Byte>, t: seq<Byte>)
    requires Viable(unit, s + t)
    ensures Viable(unit, s)
  {
    var x :| CompletedBy(unit, s + t, x);
    Regroup(s, t, x);
    assert CompletedBy(unit, s, t + x);
  }

  lemma LongestAfter(unit: Unit, s: seq<Byte>, t: seq<Byte>, n: int)
    requires PrefixFree(unit) && Segmented(unit, s)
    requires IsLongest(unit, t, n)
    ensures IsLongest(unit, s + t, |s| + n)
  {
    var w := s + t;
    assert w[..|s| + n] == s + t[..n];
    ConcatSegmented(unit, s, t[..n]);
    forall m | |s| + n < m <= |w|
      ensures !Segmented(unit, w[..m])
    {
      assert w[..m] == s + t[..m - |s|];
      if Segmented(unit, w[..m]) { CancelSegmented(unit, s, t[..m - |s|]); }
    }
  }

  /** Decoding what was carried over together with what arrived since is decoding the whole. */
  lemma LongestIncremental(unit: Unit, a: seq<Byte>, b: seq<Byte>)
    requires PrefixFree(unit)
    ensures var c := Longest(unit, a);
            Longest(unit, a + b) == c + Longest(unit, a[c..] + b)
  {
    var c := Longest(unit, a);
    var n := Longest(unit, a[c..] + b);
    assert a + b == a[..c] + (a[c..] + b);
    LongestAfter(unit, a[..c], a[c..] + b, n);
    LongestUnique(unit, a + b, Longest(unit, a + b), c + n);
  }

  /** What is left after the longest segmented prefix starts no whole unit. */
  lemma CarryHasNoUnit(unit: Unit, s: seq<Byte>, k: int)
    requires PrefixFree(unit)
    requires 0 < k <= |s| - Longest(unit, s)
    ensures !Segmented(unit, s[Longest(unit, s)..][..k])
  {
    var c := Longest(unit, s);
    assert s[..c + k] == s[..c] + s[c..][..k];
    if Segmented(unit, s[c..][..k]) {
      ConcatSegmented(unit, s[..c], s[c..][..k]);
    }
  }

  /** A viable non-empty string either starts with a unit or is the beginning of one. */
  lemma ViableHead(unit: Unit, s: seq<Byte>) returns (u: seq<Byte>)
    requires Viable(unit, s) && s != []
    ensures u != [] && unit(u) && (u <= s || s <= u)
  {
    var x :| CompletedBy(unit, s, x);
    var w := s + x;
    var n :| 0 < n <= |w| && unit(w[..n]) && Segmented(unit, w[n..]);
    u := w[..n];
    assert if n <= |s| then u == s[..n] else s == u[..|s|];
  }
}
