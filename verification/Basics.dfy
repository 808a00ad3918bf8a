/** Vocabulary shared by every component: optional values, bytes, concatenation and decimal numerals. */
module Basics {
  datatype Option<+T> = None | Some(value: T)

  /** One octet. Go strings and byte slices are both modelled as sequences of these. */
  type Byte = b: int | 0 <= b < 256

  function Min(a: int, b: int): (m: int)
    ensures m <= a && m <= b && (m == a || m == b)
  {
    if a < b then a else b
  }

  /** The parts laid end to end. */
  function Flatten<T>(parts: seq<seq<T>>): seq<T> {
    if parts == [] then [] else parts[0] + Flatten(parts[1..])
  }

  lemma {:induction false} FlattenConcat<T>(a: seq<seq<T>>, b: seq<seq<T>>)
    ensures Flatten(a + b) == Flatten(a) + Flatten(b)
  {
    if a == [] {
      assert a + b == b;
    } else {
      assert (a + b)[1..] == a[1..] + b;
      FlattenConcat(a[1..], b);
    }
  }

  lemma FlattenSnoc<T>(a: seq<seq<T>>, x: seq<T>)
    ensures Flatten(a + [x]) == Flatten(a) + x
  {
    FlattenConcat(a, [x]);
    assert Flatten([x]) == x + Flatten([]);
  }

  lemma Associate<T>(a: seq<T>, b: seq<T>, c: seq<T>)
    ensures (a + b) + c == a + (b + c)
  {
  }

  lemma ConsConcat<T>(a: seq<T>, b: seq<T>)
    requires a != []
    ensures (a + b)[1..] == a[1..] + b && (a + b)[0] == a[0]
  {
  }

  lemma SnocConcat<T>(a: seq<T>, b: seq<T>)
    requires b != []
    ensures (a + b)[..|a + b| - 1] == a + b[..|b| - 1] && (a + b)[|a + b| - 1] == b[|b| - 1]
  {
  }

  // Decimal numerals, as strconv.FormatInt and the %d verb write a non-negative number.

  predicate IsDigit(c: char) { '0' <= c <= '9' }

  predicate AllDigits(s: string) { forall i :: 0 <= i < |s| ==> IsDigit(s[i]) }

  function DigitValue(c: char): (v: nat)
    requires IsDigit(c)
    ensures v < 10
  {
    (c - '0') as int
  }

  function DigitChar(d: nat): (c: char)
    requires d < 10
    ensures IsDigit(c) && DigitValue(c) == d
  {
    '0' + d as char
  }

  /** The number a run of digits denotes. */
  function Numeral(s: string): nat
    requires AllDigits(s)
  {
    if s == "" then 0 else 10 * Numeral(s[..|s| - 1]) + DigitValue(s[|s| - 1])
  }

  function Decimal(n: nat): (s: string)
    ensures AllDigits(s) && |s| > 0
  {
    if n < 10 then [DigitChar(n)] else Decimal(n / 10) + [DigitChar(n % 10)]
  }

  /** Reading a numeral back gives the number it was written for. */
  lemma {:induction false} DecimalNumeral(n: nat)
    ensures Numeral(Decimal(n)) == n
  {
    var s := Decimal(n);
    if n < 10 {
      assert s[..0] == "";
    } else {
      assert s[..|s| - 1] == Decimal(n / 10);
      DecimalNumeral(n / 10);
    }
  }

  /** Leading zeros up to the given width, as %0*d writes them. */
  function Zeros(k: nat): (s: string)
    ensures AllDigits(s) && |s| == k
  {
    if k == 0 then "" else Zeros(k - 1) + "0"
  }

  function Padded(width: nat, n: nat): (s: string)
    ensures AllDigits(s) && |s| >= width
  {
    var d := Decimal(n);
    if |d| >= width then d else Zeros(width - |d|) + d
  }

  lemma {:induction false} ZerosNumeral(k: nat, d: string)
    requires AllDigits(d)
    ensures Numeral(Zeros(k) + d) == Numeral(d)
    decreases |d|, k
  {
    var s := Zeros(k) + d;
    if d != "" {
      assert s[..|s| - 1] == Zeros(k) + d[..|d| - 1];
      ZerosNumeral(k, d[..|d| - 1]);
    } else if k > 0 {
      assert s == Zeros(k - 1) + "0";
      assert s[..|s| - 1] == Zeros(k - 1) + "";
      ZerosNumeral(k - 1, "");
    } else {
      assert s == "";
    }
  }

  /** Padding keeps the value, so two padded numerals are equal only for equal numbers. */
  lemma PaddedNumeral(width: nat, n: nat)
    ensures Numeral(Padded(width, n)) == n
  {
    var d := Decimal(n);
    DecimalNumeral(n);
    if |d| < width { ZerosNumeral(width - |d|, d); }
  }

  function Pow10(k: nat): (p: nat)
    ensures p >= 1
  {
    if k == 0 then 1 else 10 * Pow10(k - 1)
  }

  lemma {:induction false} DecimalWidth(n: nat, k: nat)
    requires k > 0
    ensures |Decimal(n)| <= k <==> n < Pow10(k)
    decreases k
  {
    assert Pow10(k) == 10 * Pow10(k - 1);
    if k == 1 {
      assert Pow10(0) == 1;
    } else if n >= 10 {
      DecimalWidth(n / 10, k - 1);
      assert |Decimal(n)| == |Decimal(n / 10)| + 1;
    } else {
      assert Pow10(k - 1) >= 1;
    }
  }

  // Text, as the unicode and strings packages see it.

  /** unicode.IsSpace */
  predicate IsSpace(c: char) {
    || '\t' <= c <= '\r' || c == ' ' || c == '\U{0085}' || c == '\U{00A0}' || c == '\U{1680}'
    || '\U{2000}' <= c <= '\U{200A}' || c == '\U{2028}' || c == '\U{2029}' || c == '\U{202F}'
    || c == '\U{205F}' || c == '\U{3000}'
  }

  function TrimLeft(s: string): string {
    if s != "" && IsSpace(s[0]) then TrimLeft(s[1..]) else s
  }

  function TrimRight(s: string): string {
    if s != "" && IsSpace(s[|s| - 1]) then TrimRight(s[..|s| - 1]) else s
  }

  function TrimSpace(s: string): string { TrimRight(TrimLeft(s)) }

  function Lower(c: char): char {
    if 'A' <= c <= 'Z' then c - 'A' + 'a' else c
  }

  /** strings.EqualFold against a lower-case ASCII word whose letters have no other case variants */
  predicate FoldsTo(s: string, word: string) {
    |s| == |word| && forall i :: 0 <= i < |s| ==> Lower(s[i]) == word[i]
  }

  predicate AllSpace(s: string) { forall i :: 0 <= i < |s| ==> IsSpace(s[i]) }

  lemma {:induction false} TrimLeftCuts(s: string) returns (n: nat)
    ensures n <= |s| && AllSpace(s[..n]) && TrimLeft(s) == s[n..]
    ensures TrimLeft(s) != "" ==> !IsSpace(TrimLeft(s)[0])
  {
    n := 0;
    if s != "" && IsSpace(s[0]) {
      var k := TrimLeftCuts(s[1..]);
      n := k + 1;
      assert s[n..] == s[1..][k..];
      forall i | 0 <= i < n ensures IsSpace(s[i]) {
        if i > 0 { assert s[i] == s[1..][..k][i - 1]; }
      }
    }
  }

  lemma {:induction false} TrimRightCuts(s: string) returns (n: nat)
    ensures n <= |s| && AllSpace(s[n..]) && TrimRight(s) == s[..n]
    ensures TrimRight(s) != "" ==> !IsSpace(TrimRight(s)[|TrimRight(s)| - 1])
  {
    n := |s|;
    if s != "" && IsSpace(s[|s| - 1]) {
      var r := s[..|s| - 1];
      n := TrimRightCuts(r);
      forall i | n <= i < |s| ensures IsSpace(s[i]) {
        if i < |r| { assert r[i] == r[n..][i - n]; }
      }
    }
  }

  /** Trimming takes white space off both ends and nothing else. */
  lemma TrimSpaceCuts(s: string)
    ensures exists m: nat, n: nat :: m <= n <= |s| && AllSpace(s[..m]) && AllSpace(s[n..]) && TrimSpace(s) == s[m..n]
    ensures var t := TrimSpace(s); t != "" ==> !IsSpace(t[0]) && !IsSpace(t[|t| - 1])
  {
    var l := TrimLeft(s);
    var m := TrimLeftCuts(s);
    var k := TrimRightCuts(l);
    assert l[..k] == s[m..m + k] && l[k..] == s[m + k..];
    if TrimSpace(s) != "" { assert l[..k][0] == l[0]; }
    assert AllSpace(s[..m]) && AllSpace(s[m + k..]) && TrimSpace(s) == s[m..m + k];
  }

  /** Only the 26 letters have a case, in the words compared here. */
  lemma FoldsLetterByLetter(s: string, word: string)
    requires forall i :: 0 <= i < |word| ==> 'a' <= word[i] <= 'z' || word[i] == ':'
    ensures FoldsTo(s, word) <==>
            |s| == |word| && forall i :: 0 <= i < |s| ==>
              s[i] == word[i] || ('A' <= s[i] <= 'Z' && s[i] - 'A' + 'a' == word[i])
  {
  }
}
