/** The UTF-8 codec (WASM/host/utf8.ts). A string is its UTF-16 code units; shifts and masks are
    written as division and remainder. `Encode` writes what section 3 of RFC 3629 says of each
    code point, and decoding gives the string back but for its lone surrogates. */
module Utf8 {
  import opened Base

  newtype unit = x: int | 0 <= x < 0x1_0000

  predicate IsHigh(c: unit) { 0xd800 <= c < 0xdc00 }
  predicate IsLow(c: unit) { 0xdc00 <= c < 0xe000 }

  /** Whether the string begins with a surrogate pair. */
  predicate Paired(s: seq<unit>) { |s| >= 2 && IsHigh(s[0]) && IsLow(s[1]) }

  /** The first code point: a pair's, a unit's own, or U+FFFD for a lone surrogate. */
  function Point(s: seq<unit>): (c: nat)
    requires s != []
    ensures c < 0x11_0000 && !(0xd800 <= c < 0xe000) && (c >= 0x1_0000 <==> Paired(s))
  {
    if Paired(s) then 0x1_0000 + (s[0] as int - 0xd800) * 0x400 + (s[1] as int - 0xdc00)
    else if 0xd800 <= s[0] < 0xe000 then 0xfffd
    else s[0] as int
  }

  function Units(s: seq<unit>): nat
    requires s != []
  {
    if Paired(s) then 2 else 1
  }

  function Sequence(c: nat): (b: seq<byte>)
    requires c < 0x11_0000
    ensures 1 <= |b| <= 4
  {
    if c < 0x80 then [c as byte]
    else if c < 0x800 then [(0xc0 + c / 64) as byte, (0x80 + c % 64) as byte]
    else if c < 0x1_0000 then [(0xe0 + c / 4096) as byte, (0x80 + c / 64 % 64) as byte, (0x80 + c % 64) as byte]
    else [(0xf0 + c / 0x4_0000) as byte, (0x80 + c / 4096 % 64) as byte, (0x80 + c / 64 % 64) as byte, (0x80 + c % 64) as byte]
  }

  function Encode(s: seq<unit>): (b: seq<byte>)
    ensures |b| <= 3 * |s|
  {
    if s == [] then [] else Sequence(Point(s)) + Encode(s[Units(s)..])
  }

  /** A byte past the end reads as zero, as an absent element does under a mask. */
  function ByteAt(b: seq<byte>, i: nat): int { if i < |b| then b[i] as int else 0 }

  /** A unit as `String.fromCharCode` truncates it. */
  function ToUnit(x: int): unit { (x % 0x1_0000) as unit }

  /** How many bytes the first sequence takes, by its first byte alone. */
  function Width(c: int): (n: nat)
    ensures n > 0
  {
    if c < 0x80 then 1 else if c < 0xe0 then 2 else if c < 0xf0 then 3 else 4
  }

  /** The units the first sequence decodes to, for any bytes at all. */
  function First(b: seq<byte>): (u: seq<unit>)
    requires b != []
  {
    var c := b[0] as int;
    if c < 0x80 then [c as unit]
    else if c < 0xe0 then [ToUnit(c % 32 * 64 + ByteAt(b, 1) % 64)]
    else if c < 0xf0 then [ToUnit(c % 16 * 4096 + ByteAt(b, 1) % 64 * 64 + ByteAt(b, 2) % 64)]
    else Surrogates(c % 8 * 0x4_0000 + ByteAt(b, 1) % 64 * 4096 + ByteAt(b, 2) % 64 * 64 + ByteAt(b, 3) % 64 - 0x1_0000)
  }

  /** `0xd800 | (cp >> 10)` and `0xdc00 | (cp & 0x3ff)`, whose shift is arithmetic: an overlong
      sequence's is negative, and OR then keeps its high ones. */
  function Surrogates(cp: int): seq<unit> {
    [ToUnit(if cp < 0 then cp / 0x400 else 0xd800 + cp / 0x400), (0xdc00 + cp % 0x400) as unit]
  }

  function Decode(b: seq<byte>): seq<unit>
    decreases |b|
  {
    if b == [] then [] else First(b) + Decode(b[Min(Width(b[0] as int), |b|)..])
  }

  /** The string with each lone surrogate replaced. */
  function Scrub(s: seq<unit>): (r: seq<unit>)
    ensures |r| == |s|
  {
    if s == [] then []
    else if Paired(s) then s[..2] + Scrub(s[2..])
    else [if 0xd800 <= s[0] < 0xe000 then 0xfffd else s[0]] + Scrub(s[1..])
  }

  /** Every surrogate is half of a pair. */
  predicate WellFormed(s: seq<unit>)
    decreases |s|
  {
    s == [] || (if Paired(s) then WellFormed(s[2..]) else !(0xd800 <= s[0] < 0xe000) && WellFormed(s[1..]))
  }

  // ── the round trip ─────────────────────────────────────────────────────────────────

  lemma TwoBytes(c: nat)
    requires 0x80 <= c < 0x800
    ensures (0xc0 + c / 64) % 32 * 64 + (0x80 + c % 64) % 64 == c
  {
  }

  lemma ThreeBytes(c: nat)
    requires 0x800 <= c < 0x1_0000
    ensures (0xe0 + c / 4096) % 16 * 4096 + (0x80 + c / 64 % 64) % 64 * 64 + (0x80 + c % 64) % 64 == c
  {
    Digits(c);
    assert (0xe0 + c / 4096) % 16 == c / 4096;
  }

  lemma FourBytes(c: nat)
    requires 0x1_0000 <= c < 0x11_0000
    ensures (0xf0 + c / 0x4_0000) % 8 * 0x4_0000 + (0x80 + c / 4096 % 64) % 64 * 4096
            + (0x80 + c / 64 % 64) % 64 * 64 + (0x80 + c % 64) % 64 == c
  {
    Digits(c);
    var top := c / 4096;
    assert c / 0x4_0000 == top / 64;
    assert (0xf0 + c / 0x4_0000) % 8 == c / 0x4_0000;
    assert top == top / 64 * 64 + top % 64;
  }

  lemma Digits(c: nat)
    ensures c == c / 4096 * 4096 + c / 64 % 64 * 64 + c % 64
    ensures (0x80 + c / 64 % 64) % 64 == c / 64 % 64 && (0x80 + c % 64) % 64 == c % 64
    ensures (0x80 + c / 4096 % 64) % 64 == c / 4096 % 64
  {
    assert c / 4096 == c / 64 / 64;
    assert c / 64 == c / 64 / 64 * 64 + c / 64 % 64;
  }

  /** A code point's units. */
  function UnitsOf(c: nat): seq<unit>
    requires c < 0x11_0000
  {
    if c < 0x1_0000 then [c as unit] else Surrogates(c - 0x1_0000)
  }

  lemma OneOctet(c: nat, rest: seq<byte>)
    requires c < 0x80
    ensures var b := Sequence(c) + rest; First(b) == UnitsOf(c) && Width(b[0] as int) == |Sequence(c)|
  {
  }

  lemma TwoOctets(c: nat, rest: seq<byte>)
    requires 0x80 <= c < 0x800
    ensures var b := Sequence(c) + rest; First(b) == UnitsOf(c) && Width(b[0] as int) == |Sequence(c)|
  {
    var b := Sequence(c) + rest;
    assert b[0] as int == 0xc0 + c / 64 && ByteAt(b, 1) == 0x80 + c % 64;
    TwoBytes(c);
  }

  lemma ThreeOctets(c: nat, rest: seq<byte>)
    requires 0x800 <= c < 0x1_0000
    ensures var b := Sequence(c) + rest; First(b) == UnitsOf(c) && Width(b[0] as int) == |Sequence(c)|
  {
    var b := Sequence(c) + rest;
    assert b[0] as int == 0xe0 + c / 4096 && ByteAt(b, 1) == 0x80 + c / 64 % 64 && ByteAt(b, 2) == 0x80 + c % 64;
    ThreeBytes(c);
  }

  lemma FourOctets(c: nat, rest: seq<byte>)
    requires 0x1_0000 <= c < 0x11_0000
    ensures var b := Sequence(c) + rest; First(b) == UnitsOf(c) && Width(b[0] as int) == |Sequence(c)|
  {
    hide Surrogates;
    var b := Sequence(c) + rest;
    assert b[0] as int == 0xf0 + c / 0x4_0000 && ByteAt(b, 1) == 0x80 + c / 4096 % 64;
    assert ByteAt(b, 2) == 0x80 + c / 64 % 64 && ByteAt(b, 3) == 0x80 + c % 64;
    FourBytes(c);
  }

  /** The first sequence of what was encoded, whatever follows it. */
  lemma DecodeFirst(c: nat, rest: seq<byte>)
    requires c < 0x11_0000
    ensures var b := Sequence(c) + rest; First(b) == UnitsOf(c) && Width(b[0] as int) == |Sequence(c)|
  {
    hide First, Sequence, UnitsOf, Width;
    if c < 0x80 { OneOctet(c, rest); }
    else if c < 0x800 { TwoOctets(c, rest); }
    else if c < 0x1_0000 { ThreeOctets(c, rest); }
    else { FourOctets(c, rest); }
  }

  lemma ScrubFirst(s: seq<unit>)
    requires s != []
    ensures Scrub(s) == UnitsOf(Point(s)) + Scrub(s[Units(s)..])
  {
  }

  /** Decoding what was encoded replaces each lone surrogate, and nothing else. */
  lemma {:induction false} DecodeEncode(s: seq<unit>)
    ensures Decode(Encode(s)) == Scrub(s)
  {
    if s != [] {
      hide First, Sequence, Point, UnitsOf, Width, Units;
      var first, rest := Sequence(Point(s)), Encode(s[Units(s)..]);
      DecodeFirst(Point(s), rest);
      ScrubFirst(s);
      DecodeEncode(s[Units(s)..]);
      assert (first + rest)[|first|..] == rest;
    }
  }

  /** So the round trip is the identity on exactly the well-formed strings. */
  lemma {:induction false} RoundTripIff(s: seq<unit>)
    ensures Decode(Encode(s)) == s <==> WellFormed(s)
  {
    DecodeEncode(s);
    ScrubIff(s);
  }

  lemma {:induction false} ScrubIff(s: seq<unit>)
    ensures Scrub(s) == s <==> WellFormed(s)
  {
    if s != [] {
      var n := Units(s);
      ScrubIff(s[n..]);
      assert s == s[..n] + s[n..];
      assert Scrub(s)[n..] == Scrub(s[n..]);
    }
  }

  /** Scrubbing leaves a string that survives the round trip. */
  lemma {:induction false} ScrubSettles(s: seq<unit>)
    ensures WellFormed(Scrub(s))
  {
    if s != [] {
      var n := Units(s);
      ScrubSettles(s[n..]);
      assert Scrub(s)[n..] == Scrub(s[n..]);
      assert Paired(s) <==> Paired(Scrub(s)) by {
        assert Scrub(s)[0] == (if Paired(s) || !(0xd800 <= s[0] < 0xe000) then s[0] else 0xfffd);
      }
    }
  }

  // ── the loops ──────────────────────────────────────────────────────────────────────

  method Utf8Encode(s: seq<unit>) returns (b: seq<byte>)
    ensures b == Encode(s)
  {
    hide Sequence, Point, Units, Encode;
    var out := new byte[|s| * 3];
    var n, i := 0, 0;
    EncodeEnds(s);
    while i < |s|
      invariant 0 <= i <= |s| && 0 <= n <= 3 * i
      invariant Encode(s) == out[..n] + Encode(s[i..])
    {
      var c, next := NextPoint(s, i);
      PointFits(s[i..]);
      EncodeStep(s, i);
      n := Write(out, n, c);
      i := next;
    }
    return out[..n];
  }

  lemma EncodeEnds(s: seq<unit>)
    ensures s[0..] == s && Encode(s[|s|..]) == []
  {
  }

  lemma EncodeStep(s: seq<unit>, i: nat)
    requires i < |s|
    ensures i + Units(s[i..]) <= |s|
    ensures Encode(s[i..]) == Sequence(Point(s[i..])) + Encode(s[i + Units(s[i..])..])
  {
    hide Sequence, Point;
    var rest := s[i..];
    assert rest[Units(rest)..] == s[i + Units(rest)..];
  }

  lemma PointFits(s: seq<unit>)
    requires s != []
    ensures |Sequence(Point(s))| <= 3 * Units(s) && 1 <= Units(s) <= |s|
  {
  }

  /** The code point at `i`, and where the next begins. */
  method NextPoint(s: seq<unit>, i: nat) returns (c: nat, next: nat)
    requires i < |s|
    ensures c == Point(s[i..]) && next == i + Units(s[i..]) && next <= |s|
  {
    c, next := s[i] as int, i + 1;
    if 0xd800 <= c <= 0xdfff {
      if c < 0xdc00 && i + 1 < |s| && 0xdc00 <= s[i + 1] <= 0xdfff {
        c, next := 0x1_0000 + (c - 0xd800) * 0x400 + (s[i + 1] as int - 0xdc00), i + 2;
      } else {
        c := 0xfffd;
      }
    }
  }

  method Write(out: array<byte>, n: nat, c: nat) returns (m: nat)
    requires c < 0x11_0000 && n + |Sequence(c)| <= out.Length
    modifies out
    ensures m == n + |Sequence(c)| && out[..m] == old(out[..n]) + Sequence(c)
  {
    if c < 0x80 {
      m := Put(out, n, c as byte);
    } else if c < 0x800 {
      m := Put(out, n, (0xc0 + c / 64) as byte);
      m := Put(out, m, (0x80 + c % 64) as byte);
    } else if c < 0x1_0000 {
      m := Put(out, n, (0xe0 + c / 4096) as byte);
      m := Put(out, m, (0x80 + c / 64 % 64) as byte);
      m := Put(out, m, (0x80 + c % 64) as byte);
    } else {
      m := Put(out, n, (0xf0 + c / 0x4_0000) as byte);
      m := Put(out, m, (0x80 + c / 4096 % 64) as byte);
      m := Put(out, m, (0x80 + c / 64 % 64) as byte);
      m := Put(out, m, (0x80 + c % 64) as byte);
    }
  }

  method Put(out: array<byte>, n: nat, b: byte) returns (m: nat)
    requires n < out.Length
    modifies out
    ensures m == n + 1 && out[..m] == old(out[..n]) + [b]
  {
    out[n] := b;
    m := n + 1;
    assert out[..m] == out[..n] + [b];
  }

  function From(b: seq<byte>, i: nat): seq<byte> { if i < |b| then b[i..] else [] }

  lemma DecodeEnds(b: seq<byte>)
    ensures From(b, 0) == b && forall i: nat :: i >= |b| ==> Decode(From(b, i)) == []
  {
  }

  lemma DecodeStep(b: seq<byte>, i: nat)
    requires i < |b|
    ensures Decode(From(b, i)) == First(b[i..]) + Decode(From(b, i + Width(b[i] as int)))
  {
    hide First, Width;
    SkipFrom(b, i, Width(b[i] as int));
  }

  lemma SkipFrom(b: seq<byte>, i: nat, n: nat)
    requires i < |b|
    ensures b[i..][Min(n, |b[i..]|)..] == From(b, i + n)
  {
  }

  /** Units gather and are joined to the string some thousands at a time. */
  method Utf8Decode(b: seq<byte>) returns (s: seq<unit>)
    ensures s == Decode(b)
  {
    hide First, Width, Decode, From;
    DecodeEnds(b);
    var units: seq<unit> := [];
    s := [];
    var i := 0;
    while i < |b|
      invariant 0 <= i
      invariant s + units + Decode(From(b, i)) == Decode(b)
    {
      DecodeStep(b, i);
      var more := NextUnits(b, i);
      var next := i + Width(b[i] as int);
      units := units + more;
      i := next;
      if |units| >= 4096 {
        s := s + units;
        units := [];
      }
    }
    return s + units;
  }

  method NextUnits(b: seq<byte>, i: nat) returns (u: seq<unit>)
    requires i < |b|
    ensures u == First(b[i..])
  {
    hide Surrogates;
    var c := b[i] as int;
    assert b[i..][0] == b[i];
    assert ByteAt(b[i..], 1) == ByteAt(b, i + 1) && ByteAt(b[i..], 2) == ByteAt(b, i + 2) && ByteAt(b[i..], 3) == ByteAt(b, i + 3);
    if c < 0x80 {
      u := [c as unit];
    } else if c < 0xe0 {
      u := [ToUnit(c % 32 * 64 + ByteAt(b, i + 1) % 64)];
    } else if c < 0xf0 {
      u := [ToUnit(c % 16 * 4096 + ByteAt(b, i + 1) % 64 * 64 + ByteAt(b, i + 2) % 64)];
    } else {
      var cp := c % 8 * 0x4_0000 + ByteAt(b, i + 1) % 64 * 4096 + ByteAt(b, i + 2) % 64 * 64 + ByteAt(b, i + 3) % 64 - 0x1_0000;
      u := Surrogates(cp);
    }
  }
}
