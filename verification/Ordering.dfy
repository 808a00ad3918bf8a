/** Comparing strings byte by byte, as the database and sort.Strings do, and what that means for numerals. */
module Ordering {
  import opened Basics

  predicate Less(a: string, b: string)
    decreases |a|
  {
    if b == "" then false
    else if a == "" then true
    else if a[0] != b[0] then a[0] < b[0]
    else Less(a[1..], b[1..])
  }

  lemma {:induction false} LessIrreflexive(a: string)
    ensures !Less(a, a)
    decreases |a|
  {
    if a != "" { LessIrreflexive(a[1..]); }
  }

  lemma {:induction false} LessAsymmetric(a: string, b: string)
    requires Less(a, b)
    ensures !Less(b, a)
    decreases |a|
  {
    if a != "" && a[0] == b[0] { LessAsymmetric(a[1..], b[1..]); }
  }

  lemma {:induction false} LessTransitive(a: string, b: string, c: string)
    requires Less(a, b) && Less(b, c)
    ensures Less(a, c)
    decreases |a|
  {
    if a != "" && a[0] == b[0] && b[0] == c[0] { LessTransitive(a[1..], b[1..], c[1..]); }
  }

  lemma {:induction false} LessTotal(a: string, b: string)
    ensures a == b || Less(a, b) || Less(b, a)
    decreases |a|
  {
    if a != "" && b != "" && a[0] == b[0] {
      LessTotal(a[1..], b[1..]);
      assert a == [a[0]] + a[1..] && b == [b[0]] + b[1..];
    }
  }

  /** Strings made of fields of fixed width compare field by field. */
  lemma {:induction false} LessFields(a: string, b: string, c: string, d: string)
    requires |a| == |c|
    ensures Less(a + b, c + d) <==> Less(a, c) || (a == c && Less(b, d))
    decreases |a|
  {
    if a == "" {
      assert a + b == b && c + d == d;
    } else {
      assert (a + b)[1..] == a[1..] + b && (c + d)[1..] == c[1..] + d;
      assert a == [a[0]] + a[1..] && c == [c[0]] + c[1..];
      LessFields(a[1..], b, c[1..], d);
    }
  }

  lemma {:induction false} NumeralInjective(a: string, b: string)
    requires |a| == |b| && AllDigits(a) && AllDigits(b) && Numeral(a) == Numeral(b)
    ensures a == b
    decreases |a|
  {
    if a != "" {
      var n := |a| - 1;
      assert DigitValue(a[n]) == Numeral(a) % 10 && DigitValue(b[n]) == Numeral(b) % 10;
      NumeralInjective(a[..n], b[..n]);
      assert a == a[..n] + [a[n]] && b == b[..n] + [b[n]];
    }
  }

  /** Numerals of one width compare as the numbers they denote. */
  lemma {:induction false} LessNumerals(a: string, b: string)
    requires |a| == |b| && AllDigits(a) && AllDigits(b)
    ensures Less(a, b) <==> Numeral(a) < Numeral(b)
    decreases |a|
  {
    if a != "" {
      var n := |a| - 1;
      LessNumerals(a[..n], b[..n]);
      assert a == a[..n] + [a[n]] && b == b[..n] + [b[n]];
      LessFields(a[..n], [a[n]], b[..n], [b[n]]);
      assert Less([a[n]], [b[n]]) <==> a[n] < b[n];
      if Numeral(a[..n]) == Numeral(b[..n]) { NumeralInjective(a[..n], b[..n]); }
    }
  }

  lemma PaddedExact(width: nat, n: nat)
    requires width > 0 && n < Pow10(width)
    ensures |Padded(width, n)| == width
  {
    DecimalWidth(n, width);
  }

  /** Numbers padded to one width compare as numbers. */
  lemma LessPadded(width: nat, m: nat, n: nat)
    requires width > 0 && m < Pow10(width) && n < Pow10(width)
    ensures Less(Padded(width, m), Padded(width, n)) <==> m < n
    ensures Padded(width, m) == Padded(width, n) <==> m == n
  {
    PaddedExact(width, m);
    PaddedExact(width, n);
    PaddedNumeral(width, m);
    PaddedNumeral(width, n);
    LessNumerals(Padded(width, m), Padded(width, n));
  }

  // The order of names.

  ghost predicate Ascending(names: seq<string>) {
    forall i, j :: 0 <= i < j < |names| ==> Less(names[i], names[j])
  }

  function Elements(names: seq<string>): set<string> { set n | n in names }

  /** Where a name belongs among ascending ones. */
  function Insert(names: seq<string>, n: string): seq<string> {
    if names == [] || Less(n, names[0]) then [n] + names else [names[0]] + Insert(names[1..], n)
  }

  lemma {:induction false} InsertAscends(names: seq<string>, n: string)
    requires Ascending(names) && n !in names
    ensures Ascending(Insert(names, n)) && Elements(Insert(names, n)) == Elements(names) + {n}
  {
    if names != [] && !Less(n, names[0]) {
      LessTotal(n, names[0]);
      InsertAscends(names[1..], n);
      var rest := Insert(names[1..], n);
      assert names == [names[0]] + names[1..];
      assert Elements(names) == {names[0]} + Elements(names[1..]);
      forall j | 0 <= j < |rest| ensures Less(names[0], rest[j]) {
        assert rest[j] in Elements(rest);
      }
    } else if names != [] {
      forall j | 0 <= j < |names| ensures Less(n, names[j]) {
        if j > 0 { LessTransitive(n, names[0], names[j]); }
      }
    }
  }

  lemma FirstIsLeast(a: seq<string>, n: string)
    requires Ascending(a) && n in a
    ensures a[0] == n || Less(a[0], n)
  {
    var i :| 0 <= i < |a| && a[i] == n;
    assert i > 0 ==> Less(a[0], a[i]);
  }

  /** There is only one ascending list of a set of names, so map iteration order cannot show. */
  lemma {:induction false} AscendingUnique(a: seq<string>, b: seq<string>)
    requires Ascending(a) && Ascending(b) && Elements(a) == Elements(b)
    ensures a == b
  {
    assert b != [] ==> b[0] in Elements(b);
    if a != [] {
      assert a[0] in Elements(b) && b[0] in Elements(a);
      FirstIsLeast(a, b[0]);
      FirstIsLeast(b, a[0]);
      if a[0] != b[0] { LessAsymmetric(a[0], b[0]); }
      TailElements(a);
      TailElements(b);
      AscendingUnique(a[1..], b[1..]);
      assert a == [a[0]] + a[1..] && b == [b[0]] + b[1..];
    }
  }

  lemma TailElements(a: seq<string>)
    requires Ascending(a) && a != []
    ensures Ascending(a[1..]) && Elements(a[1..]) == Elements(a) - {a[0]}
  {
    LessIrreflexive(a[0]);
    assert a == [a[0]] + a[1..];
    forall i | 1 <= i < |a| ensures a[i] != a[0] {
      assert Less(a[0], a[i]);
    }
  }

  ghost function Sorted(names: set<string>): (s: seq<string>)
    ensures Ascending(s) && Elements(s) == names
  {
    if names == {} then []
    else
      var n :| n in names;
      InsertAscends(Sorted(names - {n}), n);
      Insert(Sorted(names - {n}), n)
  }

  method SortedKeys(m: map<string, string>) returns (keys: seq<string>)
    ensures keys == Sorted(m.Keys)
  {
    keys := [];
    var rest := m.Keys;
    while rest != {}
      invariant rest <= m.Keys && Ascending(keys) && Elements(keys) == m.Keys - rest
      decreases rest
    {
      var k :| k in rest;
      assert k !in Elements(keys);
      InsertAscends(keys, k);
      keys := Insert(keys, k);
      rest := rest - {k};
    }
    AscendingUnique(keys, Sorted(m.Keys));
  }
}
