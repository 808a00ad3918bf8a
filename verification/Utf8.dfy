/**
 UTF-8 as RFC 3629 defines it, and the hand-written tables of the strict decoder set against it. Section 3 (how a
 character number is laid out in octets) and section 4 (the octet grammar) are stated separately and shown to describe
 the same strings.
 */
module Utf8 {
  import opened Basics
  import opened PrefixCodes

  // Section 3 of RFC 3629: character numbers and their octets.

  predicate IsScalar(v: int) { 0 <= v < 0xD800 || 0xE000 <= v <= 0x10FFFF }

  function Encode(v: int): seq<Byte>
    requires IsScalar(v)
  {
    if v < 0x80 then [v]
    else if v < 0x800 then [0xC0 + v / 64, 0x80 + v % 64]
    else if v < 0x10000 then [0xE0 + v / 4096, 0x80 + v / 64 % 64, 0x80 + v % 64]
    else [0xF0 + v / 262144, 0x80 + v / 4096 % 64, 0x80 + v / 64 % 64, 0x80 + v % 64]
  }

  // Section 4 of RFC 3629: the grammar of octet strings.

  predicate Tail(b: int) { 0x80 <= b <= 0xBF }

  predicate IsChar(s: seq<Byte>) {
    if |s| == 1 then
      s[0] <= 0x7F
    else if |s| == 2 then
      0xC2 <= s[0] <= 0xDF && Tail(s[1])
    else if |s| == 3 then
      && (|| (s[0] == 0xE0 && 0xA0 <= s[1] <= 0xBF)
          || (0xE1 <= s[0] <= 0xEC && Tail(s[1]))
          || (s[0] == 0xED && 0x80 <= s[1] <= 0x9F)
          || (0xEE <= s[0] <= 0xEF && Tail(s[1])))
      && Tail(s[2])
    else if |s| == 4 then
      && (|| (s[0] == 0xF0 && 0x90 <= s[1] <= 0xBF)
          || (0xF1 <= s[0] <= 0xF3 && Tail(s[1]))
          || (s[0] == 0xF4 && 0x80 <= s[1] <= 0x8F))
      && Tail(s[2]) && Tail(s[3])
    else
      false
  }

  /** UTF8-octets = *( UTF8-char ) */
  ghost predicate WellFormed(s: seq<Byte>) { Segmented(IsChar, s) }

  /** The number written in the payload bits of a one- to four-octet string. */
  function Payload(s: seq<Byte>): int
    requires 1 <= |s| <= 4
  {
    var lead: int := s[0];
    if |s| == 1 then lead
    else if |s| == 2 then Base64(lead - 0xC0, s[1] as int - 0x80)
    else if |s| == 3 then Base64(Base64(lead - 0xE0, s[1] as int - 0x80), s[2] as int - 0x80)
    else Base64(Base64(Base64(lead - 0xF0, s[1] as int - 0x80), s[2] as int - 0x80), s[3] as int - 0x80)
  }

  function Base64(high: int, low: int): int { 64 * high + low }

  lemma Base64Digits(high: int, low: int)
    requires 0 <= low < 64
    ensures Base64(high, low) / 64 == high && Base64(high, low) % 64 == low
  {
  }

  lemma Quotients(v: nat)
    ensures v / 4096 == v / 64 / 64 && v / 262144 == v / 64 / 64 / 64
  {
  }

  /** Encoding loses nothing. */
  lemma EncodePayload(v: int)
    requires IsScalar(v)
    ensures IsChar(Encode(v)) && Payload(Encode(v)) == v
  {
    Quotients(v);
    assert v == Base64(v / 64, v % 64);
    assert v / 64 == Base64(v / 64 / 64, v / 64 % 64);
    assert v / 64 / 64 == Base64(v / 64 / 64 / 64, v / 64 / 64 % 64);
    assert v / 4096 % 64 == v / 64 / 64 % 64;
    if 0x800 <= v < 0x10000 {
      assert v / 64 / 64 == 0xD ==> v < 0xD800;
    }
  }

  /** Every string of the grammar is the encoding of the number its payload bits write. */
  lemma CharEncodes(s: seq<Byte>)
    requires IsChar(s)
    ensures IsScalar(Payload(s)) && Encode(Payload(s)) == s
  {
    if |s| == 2 {
      Base64Digits(s[0] as int - 0xC0, s[1] as int - 0x80);
    } else if |s| == 3 {
      ThreeEncode(s);
    } else if |s| == 4 {
      FourEncode(s);
    }
  }

  lemma ThreeEncode(s: seq<Byte>)
    requires IsChar(s) && |s| == 3
    ensures IsScalar(Payload(s)) && Encode(Payload(s)) == s
  {
    var h := Base64(s[0] as int - 0xE0, s[1] as int - 0x80);
    Base64Digits(s[0] as int - 0xE0, s[1] as int - 0x80);
    Base64Digits(h, s[2] as int - 0x80);
    Quotients(Payload(s));
  }

  lemma FourEncode(s: seq<Byte>)
    requires IsChar(s) && |s| == 4
    ensures IsScalar(Payload(s)) && Encode(Payload(s)) == s
  {
    var h := Base64(s[0] as int - 0xF0, s[1] as int - 0x80);
    var g := Base64(h, s[2] as int - 0x80);
    Base64Digits(s[0] as int - 0xF0, s[1] as int - 0x80);
    Base64Digits(h, s[2] as int - 0x80);
    Base64Digits(g, s[3] as int - 0x80);
    Quotients(Payload(s));
  }

  /** The grammar of section 4 accepts exactly the encodings of section 3. */
  lemma CharIffEncoding(s: seq<Byte>)
    ensures IsChar(s) <==> exists v :: IsScalar(v) && Encode(v) == s
  {
    if IsChar(s) {
      CharEncodes(s);
    }
    if v :| IsScalar(v) && Encode(v) == s {
      EncodePayload(v);
    }
  }

  /** No character's octets begin another's. */
  lemma Utf8PrefixFree()
    ensures PrefixFree(IsChar)
  {
    forall u: seq<Byte>, n | 0 <= n < |u| && IsChar(u)
      ensures !IsChar(u[..n])
    {
    }
  }

  // The decoder's own tables.

  /** utf8SequenceLen */
  function SequenceLen(b: Byte): (n: nat) {
    if b < 0x80 then 1
    else if b < 0xC2 then 0
    else if b < 0xE0 then 2
    else if b < 0xF0 then 3
    else if b < 0xF5 then 4
    else 0
  }

  /** utf8ContinuationRange */
  function ContinuationRange(lead: Byte, i: int): (Byte, Byte) {
    if i == 1 && lead == 0xE0 then (0xA0, 0xBF)
    else if i == 1 && lead == 0xED then (0x80, 0x9F)
    else if i == 1 && lead == 0xF0 then (0x90, 0xBF)
    else if i == 1 && lead == 0xF4 then (0x80, 0x8F)
    else (0x80, 0xBF)
  }

  predicate InRange(lead: Byte, i: int, b: Byte) {
    ContinuationRange(lead, i).0 <= b <= ContinuationRange(lead, i).1
  }

  /** The length table and the range table together spell out the grammar. */
  lemma TablesRefineGrammar(s: seq<Byte>)
    ensures IsChar(s) <==> s != [] && SequenceLen(s[0]) == |s| && forall i :: 1 <= i < |s| ==> InRange(s[0], i, s[i])
  {
    if 2 <= |s| <= 4 && SequenceLen(s[0]) == |s| {
      if forall i :: 1 <= i < |s| ==> InRange(s[0], i, s[i]) {
        assert InRange(s[0], 1, s[1]);
        assert |s| > 2 ==> InRange(s[0], 2, s[2]);
        assert |s| > 3 ==> InRange(s[0], 3, s[3]);
      }
    }
  }

  /**
   unicode/utf8.DecodeRune, as its documentation states it: the width of the first encoding, or one byte when it is
   malformed, out of range or not the shortest form of its value.
   */
  function DecodeRuneSize(p: seq<Byte>): (n: nat)
    requires 1 <= |p| <= 4
  {
    var announced := if p[0] < 0x80 then 1 else if 0xC0 <= p[0] < 0xE0 then 2 else if 0xE0 <= p[0] < 0xF0 then 3
                     else if 0xF0 <= p[0] < 0xF8 then 4 else 0;
    if announced == 0 || announced > |p| then 1
    else
      var q := p[..announced];
      if (forall i | 1 <= i < announced :: Tail(q[i])) && IsScalar(Payload(q)) && Encode(Payload(q)) == q
      then announced else 1
  }

  /** On a string as long as its lead byte announces, the library accepts the characters and nothing else. */
  lemma DecodeRuneAccepts(p: seq<Byte>)
    requires 1 <= |p| <= 4 && SequenceLen(p[0]) == |p|
    ensures |p| > 1 ==> (DecodeRuneSize(p) == |p| <==> IsChar(p))
  {
    assert p[..|p|] == p;
    TablesRefineGrammar(p);
    if IsChar(p) {
      CharEncodes(p);
      assert forall i | 1 <= i < |p| :: Tail(p[i]);
    } else if IsScalar(Payload(p)) {
      EncodePayload(Payload(p));
    }
  }

  /** A partial character whose bytes so far are in range can be completed by the lowest bytes still allowed. */
  function Completion(s: seq<Byte>): (u: seq<Byte>)
    requires s != [] && |s| <= SequenceLen(s[0])
    ensures |u| == SequenceLen(s[0]) && s <= u
    decreases 4 - |s|
  {
    if |s| == SequenceLen(s[0]) then s else Completion(s + [ContinuationRange(s[0], |s|).0])
  }

  lemma {:induction false} CompletionIsChar(s: seq<Byte>)
    requires s != [] && |s| <= SequenceLen(s[0])
    requires forall i :: 1 <= i < |s| ==> InRange(s[0], i, s[i])
    ensures IsChar(Completion(s))
    decreases 4 - |s|
  {
    if |s| == SequenceLen(s[0]) {
      TablesRefineGrammar(s);
    } else {
      CompletionIsChar(s + [ContinuationRange(s[0], |s|).0]);
    }
  }

  /**
   A string that starts at a character but holds less than one can be completed exactly when no byte is out of range.
   */
  lemma PartialViable(s: seq<Byte>)
    requires s != [] && |s| < SequenceLen(s[0])
    ensures Viable(IsChar, s) <==> forall i :: 1 <= i < |s| ==> InRange(s[0], i, s[i])
  {
    if forall i :: 1 <= i < |s| ==> InRange(s[0], i, s[i]) {
      var u := Completion(s);
      CompletionIsChar(s);
      SegmentedUnit(IsChar, u);
      assert s + u[|s|..] == u;
      assert CompletedBy(IsChar, s, u[|s|..]);
    }
    if Viable(IsChar, s) {
      var u := ViableHead(IsChar, s);
      TablesRefineGrammar(u);
      assert u[0] == s[0];
      forall i | 1 <= i < |s|
        ensures InRange(s[0], i, s[i])
      {
        assert u[i] == s[i];
      }
    }
  }

  /** A string that starts with a complete sequence can be completed only if that sequence is a character. */
  lemma CompleteViable(s: seq<Byte>)
    requires s != [] && SequenceLen(s[0]) <= |s|
    requires Viable(IsChar, s)
    ensures SequenceLen(s[0]) > 0 && IsChar(s[..SequenceLen(s[0])])
  {
    var u := ViableHead(IsChar, s);
    TablesRefineGrammar(u);
    assert u[0] == s[0];
    assert |u| == SequenceLen(s[0]);
    assert u == s[..|u|];
  }

  /** The bytes left behind by a viable string are fewer than one character: at most three. */
  lemma CarryBound(s: seq<Byte>)
    requires Viable(IsChar, s)
    ensures |s| - Longest(IsChar, s) <= 3
  {
    Utf8PrefixFree();
    var c := Longest(IsChar, s);
    var r := s[c..];
    assert s[..c] + r == s;
    ViableAfter(IsChar, s[..c], r);
    if r != [] {
      var u := ViableHead(IsChar, r);
      if u <= r {
        assert r[..|u|] == u;
        SegmentedUnit(IsChar, u);
        CarryHasNoUnit(IsChar, s, |u|);
      }
    }
  }

  /** Inside a longer character no byte is ASCII. */
  lemma AsciiStandsAlone(u: seq<Byte>, r: seq<Byte>)
    requires IsChar(u) && r != [] && r <= u && r[|r| - 1] < 0x80
    ensures r == u
  {
    assert u[|r| - 1] == r[|r| - 1];
    assert |u| == 1;
  }

  /** In well-formed text the position just after an ASCII byte is a character boundary. */
  lemma AsciiBoundary(s: seq<Byte>, k: nat)
    requires k < |s| && s[k] < 0x80
    requires Viable(IsChar, s)
    ensures WellFormed(s[..k + 1])
  {
    Utf8PrefixFree();
    var t := s[..k + 1];
    assert s == t + s[k + 1..];
    ViablePrefix(IsChar, t, s[k + 1..]);
    AsciiEnd(t);
  }

  /** Text that can still become well-formed and ends in an ASCII byte is well-formed already. */
  lemma AsciiEnd(t: seq<Byte>)
    requires t != [] && t[|t| - 1] < 0x80 && Viable(IsChar, t)
    ensures WellFormed(t)
  {
    Utf8PrefixFree();
    var c := Longest(IsChar, t);
    var r := t[c..];
    assert t[..c] + r == t;
    if r == [] {
      assert t[..c] == t;
    } else {
      ViableAfter(IsChar, t[..c], r);
      var u := ViableHead(IsChar, r);
      if r <= u { AsciiStandsAlone(u, r); }
      assert u == r[..|u|];
      SegmentedUnit(IsChar, u);
      CarryHasNoUnit(IsChar, t, |u|);
    }
  }
}
